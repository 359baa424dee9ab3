/** Sums, counts, and the few facts about products and quotients of reals that the numeric proofs rest on. */
module Reals {
  function Abs(x: real): real { if x < 0.0 then -x else x }

  function Max(a: real, b: real): real { if a < b then b else a }

  function Sum(values: seq<real>): real {
    if values == [] then 0.0 else Sum(values[..|values| - 1]) + values[|values| - 1]
  }

  // How many of the times lie in the window from lo up to hi.
  function CountIn(times: seq<real>, lo: real, hi: real): nat {
    if times == [] then 0
    else CountIn(times[..|times| - 1], lo, hi) + (if lo <= times[|times| - 1] < hi then 1 else 0)
  }

  lemma {:induction false} CountInIs(times: seq<real>, lo: real, hi: real)
    ensures CountIn(times, lo, hi) == |set i | 0 <= i < |times| && lo <= times[i] < hi|
  {
    var all := set i | 0 <= i < |times| && lo <= times[i] < hi;
    if times == [] {
      assert all == {};
    } else {
      var n := |times| - 1;
      CountInIs(times[..n], lo, hi);
      var before := set i | 0 <= i < n && lo <= times[..n][i] < hi;
      assert all == before + if lo <= times[n] < hi then {n} else {};
    }
  }

  // How many of the times are later than the cutoff.
  ghost function Later(times: seq<real>, cutoff: real): nat {
    |set i | 0 <= i < |times| && cutoff < times[i]|
  }

  lemma NoneLater(cutoff: real)
    ensures Later([], cutoff) == 0
  {
    var times: seq<real> := [];
    assert (set i | 0 <= i < |times| && cutoff < times[i]) == {};
  }

  lemma LaterSnoc(times: seq<real>, x: real, cutoff: real)
    ensures Later(times + [x], cutoff) == Later(times, cutoff) + if cutoff < x then 1 else 0
  {
    var before, all := set i | 0 <= i < |times| && cutoff < times[i],
      set i | 0 <= i < |times + [x]| && cutoff < (times + [x])[i];
    assert all == before + if cutoff < x then {|times|} else {};
  }

  lemma MulMono(a: real, b: real, k: real)
    requires a <= b && 0.0 <= k
    ensures a * k <= b * k
  {
  }

  lemma MulStrict(a: real, b: real, k: real)
    requires a < b && 0.0 < k
    ensures a * k < b * k
  {
  }

  lemma MulCancel(a: real, b: real, k: real)
    requires a * k <= b * k && 0.0 < k
    ensures a <= b
  {
    if b < a {
      MulStrict(b, a, k);
    }
  }

  lemma MulCancelStrict(a: real, b: real, k: real)
    requires a * k < b * k && 0.0 < k
    ensures a < b
  {
    if b <= a {
      MulMono(b, a, k);
    }
  }

  lemma DivMul(a: real, k: real)
    requires k != 0.0
    ensures a / k * k == a
  {
  }

  // A quotient q = a / k compares with b as a does with b * k.
  lemma QuotientLe(q: real, a: real, b: real, k: real)
    requires 0.0 < k && q * k == a
    ensures q <= b <==> a <= b * k
  {
    if q <= b {
      MulMono(q, b, k);
    } else {
      MulStrict(b, q, k);
    }
  }

  lemma DivLe(a: real, b: real, k: real)
    requires 0.0 < k
    ensures a / k <= b <==> a <= b * k
  {
    DivMul(a, k);
    QuotientLe(a / k, a, b, k);
  }

  lemma MulSub(a: real, b: real, k: real)
    ensures (a - b) * k == a * k - b * k
  {
  }

  lemma MulAdd(a: real, b: real, k: real)
    ensures (a + b) * k == a * k + b * k
  {
  }

  lemma OneMoreTimes(a: real, n: nat)
    ensures a * (n + 1) as real == a * n as real + a
  {
  }

  lemma AbsMul(d: real, k: real)
    requires 0.0 <= k
    ensures Abs(d) * k == Abs(d * k)
  {
  }

  lemma SquareMono(a: real, b: real)
    requires 0.0 <= a <= b
    ensures a * a <= b * b
  {
    MulMono(a, b, a);
    MulMono(a, b, b);
  }

  lemma SquareAdd(a: real, b: real)
    ensures (a + b) * (a + b) == a * a + 2.0 * (a * b) + b * b
  {
  }

  // Multiplication by k as a function, so that sums can be scaled without unfolding products.
  function Times(k: real): real -> real {
    (x: real) => x * k
  }

  ghost predicate AddsAt(scale: real -> real, x: real, y: real) {
    scale(x + y) == scale(x) + scale(y)
  }

  ghost predicate Additive(scale: real -> real) {
    scale(0.0) == 0.0 && forall x, y :: AddsAt(scale, x, y)
  }

  lemma TimesIsAdditive(k: real)
    ensures Additive(Times(k))
  {
    forall x, y ensures AddsAt(Times(k), x, y) {
      MulAdd(x, y, k);
    }
  }
}
