/** Unwrapping 32-bit sequence numbers into cumulative offsets from the first one seen. */
module Unwrap {
  import opened Core
  import opened Serial

  /** The furthest sequence number seen and its cumulative offset. */
  datatype Frontier = Frontier(seqNo: u32, rel: int)

  /** The offset of `s`, and the frontier after it. */
  function Offset(f: Option<Frontier>, s: u32): (r: (Option<Frontier>, int)) {
    match f
    case None => (Some(Frontier(s, 0)), 0)
    case Some(Frontier(fseq, frel)) =>
      if s == fseq then (f, frel)
      else if SerialGt(s, fseq) then
        var rel := frel + SerialDiff(s, fseq);
        (Some(Frontier(s, rel)), rel)
      else (f, frel - SerialDiff(fseq, s))
  }

  /** With the frontier at position `top`, the offset of position `p` is its true distance
      exactly when `p` is less than half the space ahead of the frontier, or at most half
      behind it. */
  lemma OffsetExactly(top: int, rel: int, p: int)
    ensures var r := Offset(Some(Frontier(Wrap(top), rel)), Wrap(p));
            && (r.1 == rel + (p - top) <==> -HALF <= p - top < HALF)
            && (-HALF <= p - top < HALF ==>
                  r.0 == Some(Frontier(Wrap(Max(top, p)), rel + (Max(top, p) - top))))
  {
    WrapDifference(top, p);
    WrapDifference(p, top);
    assert -HALF <= p - top < HALF ==> (Wrap(top) == Wrap(p) <==> p == top);
  }

  function Top(ps: seq<int>): int
    requires |ps| > 0
  {
    if |ps| == 1 then ps[0] else Max(Top(ps[..|ps| - 1]), ps[|ps| - 1])
  }

  /** Every position is within reach of the running maximum before it. */
  predicate WithinReach(ps: seq<int>) {
    |ps| > 1 ==>
      var pre, p := ps[..|ps| - 1], ps[|ps| - 1];
      WithinReach(pre) && -HALF <= p - Top(pre) < HALF
  }

  /** The frontier after the wrapped values of all of `ps`, and the offset of the last. */
  function OffsetRun(ps: seq<int>): (Option<Frontier>, int) {
    if |ps| == 0 then (None, 0)
    else Offset(OffsetRun(ps[..|ps| - 1]).0, Wrap(ps[|ps| - 1]))
  }

  /** Unwrapping inverts reduction modulo 2^32: whatever the number of wraps, each fed
      value comes back as its position relative to the first. */
  lemma {:induction false} UnwrapInvertsWrap(ps: seq<int>)
    requires |ps| > 0 && WithinReach(ps)
    ensures OffsetRun(ps) == (Some(Frontier(Wrap(Top(ps)), Top(ps) - ps[0])), ps[|ps| - 1] - ps[0])
  {
    if |ps| > 1 {
      var pre, p := ps[..|ps| - 1], ps[|ps| - 1];
      UnwrapInvertsWrap(pre);
      OffsetExactly(Top(pre), Top(pre) - ps[0], p);
    } else {
      assert ps[..0] == [];
    }
  }
}
