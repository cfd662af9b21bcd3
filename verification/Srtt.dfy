/** The smoothed round-trip time: an integer form of the exponential average of section 2
    of RFC 6298 with gain 1/8. */
module Srtt {
  import opened Core

  /** One smoothing step, divided and narrowed as the engine does. */
  function Smooth(prev: Option<u64>, rtt: u64): u64 {
    if prev.None? then rtt
    else NarrowU64((7 * prev.value + rtt) / 8)
  }

  function Smoothed(rtts: seq<u64>): u64
    requires |rtts| > 0
  {
    var n := |rtts| - 1;
    Smooth(if n == 0 then None else Some(Smoothed(rtts[..n])), rtts[n])
  }

  /** The exact rational average. */
  function Ewma(rtts: seq<u64>): real
    requires |rtts| > 0
  {
    var n := |rtts| - 1;
    if n == 0 then rtts[0] as real
    else (7.0 * Ewma(rtts[..n]) + rtts[n] as real) / 8.0
  }

  /** However long the run, truncation costs less than seven nanoseconds, always downward. */
  lemma {:induction false} TracksExactAverage(rtts: seq<u64>)
    requires |rtts| > 0
    ensures Smoothed(rtts) as real <= Ewma(rtts) < Smoothed(rtts) as real + 7.0
  {
    var n := |rtts| - 1;
    if n > 0 {
      TracksExactAverage(rtts[..n]);
      TruncationStep(Smoothed(rtts[..n]), rtts[n], Ewma(rtts[..n]));
    }
  }

  lemma TruncationStep(s: u64, r: u64, e: real)
    requires s as real <= e < s as real + 7.0
    ensures var s' := Smooth(Some(s), r);
            var e' := (7.0 * e + r as real) / 8.0;
            s' as real <= e' < s' as real + 7.0
  {
    var num := 7 * s + r;
    var s' := num / 8;
    assert 8 * s' <= num <= 8 * s' + 7;
    assert (8 * s') as real <= num as real <= (8 * s' + 7) as real;
    assert num as real == 7.0 * (s as real) + r as real;
  }

  /** The average never leaves the range of what was measured (so it never saturates). */
  lemma {:induction false} StaysInRange(rtts: seq<u64>, lo: u64, hi: u64)
    requires |rtts| > 0 && forall i | 0 <= i < |rtts| :: lo <= rtts[i] <= hi
    ensures lo <= Smoothed(rtts) <= hi
  {
    if |rtts| > 1 {
      StaysInRange(rtts[..|rtts| - 1], lo, hi);
    }
  }

  /** `k` further samples, all equal to `r`, from a smoothed value of `s`. */
  function Settle(s: u64, r: u64, k: nat): u64 {
    if k == 0 then s else Smooth(Some(Settle(s, r, k - 1)), r)
  }

  /** On constant input the value settles: exactly onto the input from above, and from
      below to within seven nanoseconds, where it stays. */
  lemma {:induction false} SettlesOnConstantInput(s: u64, r: u64, k: nat)
    ensures s >= r ==> r <= Settle(s, r, k) <= Max(r, s - k)
    ensures s <= r ==> Max(s, if k <= r - s - 7 then s + k else r - 7) <= Settle(s, r, k) <= r
  {
    if k > 0 {
      SettlesOnConstantInput(s, r, k - 1);
    }
  }
}
