/** Fitting an order quantity to the exchange's lot filters, and raising it when it is too small. */
module Quantity {
  import opened Reals
  import opened Wrappers

  datatype Filters = Filters(step: real, minQty: real, minNotional: real)

  datatype Rejection = NonPositive | NoFilters | BelowMinQty | BelowMinNotional | OverRiskCap

  // What the adapter answers, read by read: the first normalization reads the filters and the mark
  // price, raising the size reads both again, and the risk cap reads the mark once more.
  datatype Reads = Reads(filters: Option<Filters>, mark: Option<real>,
                         filtersAgain: Option<Filters>, markAgain: Option<real>, markForCap: Option<real>)

  // ---------------------------------------------------------------- the step grid

  function GridPoint(step: real, k: int): real {
    k as real * step
  }

  // Without a step every quantity is acceptable.
  ghost predicate OnGrid(q: real, step: real) {
    step <= 0.0 || exists k: int :: q == GridPoint(step, k)
  }

  function RoundDown(q: real, step: real): real {
    if step > 0.0 then GridPoint(step, (q / step).Floor) else q
  }

  function Ceiling(x: real): int {
    -(-x).Floor
  }

  function RoundUp(q: real, step: real): real {
    if step > 0.0 then GridPoint(step, Ceiling(q / step)) else q
  }

  // RoundDown is the greatest grid point at or below q.
  lemma RoundDownIsGreatest(q: real, step: real)
    ensures OnGrid(RoundDown(q, step), step) && RoundDown(q, step) <= q
    ensures step > 0.0 ==> q < RoundDown(q, step) + step
    ensures forall m :: OnGrid(m, step) && m <= q ==> m <= RoundDown(q, step)
  {
    hide GridPoint;
    if step > 0.0 {
      var n := (q / step).Floor;
      Below(q, step, n);
      Above(q, step, n + 1);
      NextPoint(step, n);
      forall m | OnGrid(m, step) && m <= q ensures m <= RoundDown(q, step) {
        var k: int :| m == GridPoint(step, k);
        AtMost(q, step, k);
        PointsAscend(step, k, n);
      }
    }
  }

  // RoundUp is the least grid point at or above q.
  lemma RoundUpIsLeast(q: real, step: real)
    ensures OnGrid(RoundUp(q, step), step) && q <= RoundUp(q, step)
    ensures forall m :: OnGrid(m, step) && q <= m ==> RoundUp(q, step) <= m
  {
    hide GridPoint;
    if step > 0.0 {
      var n := Ceiling(q / step);
      AtLeast(q, step, n);
      forall m | OnGrid(m, step) && q <= m ensures RoundUp(q, step) <= m {
        var k: int :| m == GridPoint(step, k);
        QuotientAtMost(q, step, k);
        PointsAscend(step, n, k);
      }
    }
  }

  lemma Below(q: real, step: real, n: int)
    requires step > 0.0 && n as real <= q / step
    ensures GridPoint(step, n) <= q
  {
    DivMul(q, step);
    MulMono(n as real, q / step, step);
  }

  lemma Above(q: real, step: real, n: int)
    requires step > 0.0 && q / step < n as real
    ensures q < GridPoint(step, n)
  {
    DivMul(q, step);
    MulStrict(q / step, n as real, step);
  }

  lemma AtLeast(q: real, step: real, n: int)
    requires step > 0.0 && q / step <= n as real
    ensures q <= GridPoint(step, n)
  {
    DivMul(q, step);
    MulMono(q / step, n as real, step);
  }

  lemma AtMost(q: real, step: real, k: int)
    requires step > 0.0 && GridPoint(step, k) <= q
    ensures k as real <= q / step
  {
    DivMul(q, step);
    MulCancel(k as real, q / step, step);
  }

  lemma QuotientAtMost(q: real, step: real, k: int)
    requires step > 0.0 && q <= GridPoint(step, k)
    ensures q / step <= k as real
  {
    DivMul(q, step);
    MulCancel(q / step, k as real, step);
  }

  lemma PointsAscend(step: real, i: int, j: int)
    requires step > 0.0 && i <= j
    ensures GridPoint(step, i) <= GridPoint(step, j)
  {
    MulMono(i as real, j as real, step);
  }

  lemma NextPoint(step: real, n: int)
    ensures GridPoint(step, n + 1) == GridPoint(step, n) + step
  {
    MulAdd(n as real, 1.0, step);
    assert (n + 1) as real == n as real + 1.0;
  }

  // ---------------------------------------------------------------- normalization

  // A missing or non-positive mark price leaves the notional unchecked.
  predicate ClearsNotional(q: real, minNotional: real, mark: Option<real>) {
    minNotional > 0.0 && mark.Some? && mark.value > 0.0 ==> q * mark.value >= minNotional
  }

  predicate Passes(q: real, f: Filters, mark: Option<real>) {
    q >= f.minQty && ClearsNotional(q, f.minNotional, mark)
  }

  lemma PassesUpward(p: real, q: real, f: Filters, mark: Option<real>)
    requires p <= q && Passes(p, f, mark)
    ensures Passes(q, f, mark)
  {
    if mark.Some? && mark.value > 0.0 {
      MulMono(p, q, mark.value);
    }
  }

  // Non-positive quantities are handed back as they are; others are rounded down and checked.
  function Normalize(qty: real, filters: Option<Filters>, mark: Option<real>): Result<real, Rejection> {
    if qty <= 0.0 then Success(qty)
    else if filters.None? then Failure(NoFilters)
    else
      var f := filters.value;
      var q := RoundDown(qty, f.step);
      if q < f.minQty then Failure(BelowMinQty)
      else if !ClearsNotional(q, f.minNotional, mark) then Failure(BelowMinNotional)
      else Success(q)
  }

  // The result is the greatest grid point at or below the request, and it passes the filters; a
  // request is refused exactly when no grid point at or below it would pass.
  lemma NormalizeIsBest(qty: real, f: Filters, mark: Option<real>)
    requires qty > 0.0
    ensures var r := Normalize(qty, Some(f), mark);
      && (r.Success? ==> OnGrid(r.value, f.step) && r.value <= qty && Passes(r.value, f, mark))
      && (r.Success? ==> forall m :: OnGrid(m, f.step) && m <= qty ==> m <= r.value)
      && (r.Success? && f.step > 0.0 ==> qty < r.value + f.step)
      && (r.Failure? <==> forall m :: OnGrid(m, f.step) && m <= qty ==> !Passes(m, f, mark))
  {
    hide OnGrid, RoundDown, ClearsNotional;
    RoundDownIsGreatest(qty, f.step);
    var q := RoundDown(qty, f.step);
    if Normalize(qty, Some(f), mark).Failure? {
      forall m | OnGrid(m, f.step) && m <= qty ensures !Passes(m, f, mark) {
        if Passes(m, f, mark) {
          PassesUpward(m, q, f, mark);
        }
      }
    }
  }

  // A quantity is a fixed point exactly when it is on the grid and passes.
  lemma NormalizeFixes(q: real, f: Filters, mark: Option<real>)
    requires q > 0.0
    ensures Normalize(q, Some(f), mark) == Success(q) <==> OnGrid(q, f.step) && Passes(q, f, mark)
  {
    hide OnGrid, RoundDown, ClearsNotional;
    RoundDownIsGreatest(q, f.step);
  }

  // ---------------------------------------------------------------- raising

  function Raise(qty: real, f: Filters, mark: Option<real>): real {
    var target := Max(qty, f.minQty);
    if f.minNotional > 0.0 && mark.Some? && mark.value > 0.0 && f.minNotional / mark.value > target then
      RoundUp(f.minNotional / mark.value, f.step)
    else target
  }

  // The raised size passes the filters and no grid point at or above the request that passes is
  // smaller; but it need not be a grid point itself.
  lemma RaiseIsLeast(qty: real, f: Filters, mark: Option<real>)
    ensures var t := Raise(qty, f, mark);
      && qty <= t && Passes(t, f, mark)
      && forall m :: OnGrid(m, f.step) && qty <= m && Passes(m, f, mark) ==> t <= m
  {
    hide OnGrid, RoundUp;
    var t := Raise(qty, f, mark);
    if f.minNotional > 0.0 && mark.Some? && mark.value > 0.0 {
      var needed := f.minNotional / mark.value;
      RoundUpIsLeast(needed, f.step);
      NotionalAt(t, f.minNotional, mark.value);
      forall m | OnGrid(m, f.step) && qty <= m && Passes(m, f, mark) ensures t <= m {
        NotionalAt(m, f.minNotional, mark.value);
      }
    }
  }

  lemma NotionalAt(q: real, minNotional: real, mark: real)
    requires mark > 0.0
    ensures q * mark >= minNotional <==> q >= minNotional / mark
  {
    DivLe(minNotional, q, mark);
  }

  // ---------------------------------------------------------------- preparing an order

  // The last check against the absolute risk cap; it is off without a cap, and not enforced without a mark.
  predicate WithinRiskCap(q: real, cap: Option<real>, mark: Option<real>) {
    && q > 0.0
    && (cap.Some? && cap.value > 0.0 && mark.Some? && mark.value > 0.0 ==> q * mark.value <= cap.value)
  }

  predicate Usable(preCap: Option<real>) {
    preCap.Some? && preCap.value > 0.0
  }

  // The size before risk sizing: the argument, or what was recorded on the action.
  function EffectivePreCap(preCap: Option<real>, recorded: Option<real>): Option<real> {
    if !Usable(preCap) && recorded.Some? then recorded else preCap
  }

  // When the second read of the filters fails, they count as zero.
  function FiltersOrZero(filters: Option<Filters>): Filters {
    if filters.Some? then filters.value else Filters(0.0, 0.0, 0.0)
  }

  function Prepare(qty: Option<real>, preCap: Option<real>, recorded: Option<real>, seen: Reads,
                   riskCap: Option<real>): Result<real, Rejection> {
    if qty.None? || qty.value <= 0.0 then Failure(NonPositive)
    else
      var normalized := Normalize(qty.value, seen.filters, seen.mark);
      var limit := EffectivePreCap(preCap, recorded);
      if normalized.Success? then normalized
      else if !Usable(limit) then normalized
      else
        var target := Raise(qty.value, FiltersOrZero(seen.filtersAgain), seen.markAgain);
        if target > limit.value then normalized
        else if !WithinRiskCap(target, riskCap, seen.markForCap) then Failure(OverRiskCap)
        else Success(target)
  }

  // An accepted quantity is either rounded down by less than a step, or raised: never above the
  // size before risk sizing, never above the risk cap, and clearing the filters as re-read.
  lemma PreparedIsSafe(qty: real, preCap: Option<real>, recorded: Option<real>, seen: Reads, riskCap: Option<real>)
    requires qty > 0.0
    ensures var r := Prepare(Some(qty), preCap, recorded, seen, riskCap);
      r.Success? ==>
        || (&& seen.filters.Some? && OnGrid(r.value, seen.filters.value.step) && r.value <= qty
            && (seen.filters.value.step > 0.0 ==> qty < r.value + seen.filters.value.step)
            && (seen.filters.value.step <= 0.0 ==> r.value == qty)
            && Passes(r.value, seen.filters.value, seen.mark))
        || (&& Normalize(qty, seen.filters, seen.mark).Failure?
            && qty <= r.value && Passes(r.value, FiltersOrZero(seen.filtersAgain), seen.markAgain)
            && (Usable(preCap) ==> r.value <= preCap.value)
            && (!Usable(preCap) ==> recorded.Some? && r.value <= recorded.value)
            && r.value > 0.0
            && (riskCap.Some? && riskCap.value > 0.0 && seen.markForCap.Some? && seen.markForCap.value > 0.0 ==>
                  r.value * seen.markForCap.value <= riskCap.value))
  {
    hide OnGrid, Raise, ClearsNotional, Passes;
    if seen.filters.Some? {
      NormalizeIsBest(qty, seen.filters.value, seen.mark);
    }
    RaiseIsLeast(qty, FiltersOrZero(seen.filtersAgain), seen.markAgain);
  }

  // No trade is lost while some acceptable size exists between the request and the pre-cap.
  lemma PreparedUnlessHopeless(qty: real, preCap: Option<real>, recorded: Option<real>, seen: Reads,
                               riskCap: Option<real>, m: real)
    requires qty > 0.0 && qty <= m
    requires OnGrid(m, FiltersOrZero(seen.filtersAgain).step)
    requires Passes(m, FiltersOrZero(seen.filtersAgain), seen.markAgain)
    requires if Usable(preCap) then m <= preCap.value else recorded.Some? && m <= recorded.value
    requires riskCap.Some? && riskCap.value > 0.0 && seen.markForCap.Some? && seen.markForCap.value > 0.0 ==>
      m * seen.markForCap.value <= riskCap.value
    ensures var r := Prepare(Some(qty), preCap, recorded, seen, riskCap);
      r.Success? && r.value <= m
  {
    hide OnGrid, Raise, Passes, RoundDown, ClearsNotional;
    var f := FiltersOrZero(seen.filtersAgain);
    RaiseIsLeast(qty, f, seen.markAgain);
    WithinDownward(Raise(qty, f, seen.markAgain), m, riskCap, seen.markForCap);
    if seen.filters.Some? {
      RoundDownIsGreatest(qty, seen.filters.value.step);
    }
  }

  // A refusal names its cause: no positive quantity; too great a risk at the raised size; or else what the first
  // normalization found.
  lemma RefusalReason(qty: Option<real>, preCap: Option<real>, recorded: Option<real>, seen: Reads, riskCap: Option<real>)
    ensures var r := Prepare(qty, preCap, recorded, seen, riskCap);
      && (r == Failure(NonPositive) <==> qty.None? || qty.value <= 0.0)
      && (r == Failure(OverRiskCap) ==>
            var t := Raise(qty.value, FiltersOrZero(seen.filtersAgain), seen.markAgain);
            && riskCap.Some? && riskCap.value > 0.0 && seen.markForCap.Some? && seen.markForCap.value > 0.0
            && t * seen.markForCap.value > riskCap.value)
      && (r.Failure? && r.error != NonPositive && r.error != OverRiskCap ==> r == Normalize(qty.value, seen.filters, seen.mark))
  {
    hide OnGrid, ClearsNotional, RoundDown, Raise;
    if qty.Some? && qty.value > 0.0 {
      RaiseIsLeast(qty.value, FiltersOrZero(seen.filtersAgain), seen.markAgain);
    }
  }

  lemma WithinDownward(t: real, m: real, cap: Option<real>, mark: Option<real>)
    requires 0.0 < t <= m && WithinRiskCap(m, cap, mark)
    ensures WithinRiskCap(t, cap, mark)
  {
    if mark.Some? && mark.value > 0.0 {
      MulMono(t, m, mark.value);
    }
  }

  // ---------------------------------------------------------------- stability

  // Reads that agree with each other: the same filters and the same mark every time.
  function Steady(f: Filters, mark: real): Reads {
    Reads(Some(f), Some(mark), Some(f), Some(mark), Some(mark))
  }

  // The greater of request and minimum clears the notional floor, so raising keeps it; but it is off the
  // grid: the request if rounding it down falls below one of the limits, the minimum by itself.
  predicate StaysOffGrid(qty: real, f: Filters, mark: real)
    requires mark > 0.0
  {
    && f.step > 0.0
    && (f.minNotional > 0.0 ==> f.minNotional / mark <= Max(qty, f.minQty))
    && if f.minQty <= qty then !Passes(RoundDown(qty, f.step), f, Some(mark))
       else RoundDown(f.minQty, f.step) < f.minQty
  }

  // Raising gives a grid point unless the request or the minimum is kept off the grid.
  lemma RaisedOnGrid(qty: real, f: Filters, mark: real)
    requires mark > 0.0 && Normalize(qty, Some(f), Some(mark)).Failure?
    ensures OnGrid(Raise(qty, f, Some(mark)), f.step) <==> !StaysOffGrid(qty, f, mark)
  {
    hide OnGrid, RoundDown, RoundUp;
    RoundDownIsGreatest(qty, f.step);
    RoundDownIsGreatest(f.minQty, f.step);
    NotionalAt(qty, f.minNotional, mark);
    if f.minNotional > 0.0 {
      RoundUpIsLeast(f.minNotional / mark, f.step);
    }
    if f.step <= 0.0 {
      NoStep(Raise(qty, f, Some(mark)), f.step);
    }
  }

  lemma NoStep(q: real, step: real)
    requires step <= 0.0
    ensures OnGrid(q, step) && RoundDown(q, step) == q
  {
  }

  // With steady reads the order placement's own normalization keeps the prepared quantity, except exactly
  // when it stays off the grid.
  lemma PreparedIsStable(qty: real, preCap: Option<real>, recorded: Option<real>, f: Filters, mark: real,
                         riskCap: Option<real>)
    requires qty > 0.0 && mark > 0.0
    ensures var r := Prepare(Some(qty), preCap, recorded, Steady(f, mark), riskCap);
      r.Success? ==> (Normalize(r.value, Some(f), Some(mark)) == r <==> !StaysOffGrid(qty, f, mark))
  {
    hide OnGrid, Raise, ClearsNotional, Passes, WithinRiskCap, EffectivePreCap, RoundDown, Normalize, StaysOffGrid;
    var r := Prepare(Some(qty), preCap, recorded, Steady(f, mark), riskCap);
    var n := Normalize(qty, Some(f), Some(mark));
    if r.Success? {
      if n.Success? {
        NormalizedIsOnGrid(qty, f, mark);
        NormalizeIsBest(qty, f, Some(mark));
        if r.value > 0.0 {
          NormalizeFixes(r.value, f, Some(mark));
        } else {
          NonPositiveKept(r.value, Some(f), Some(mark));
        }
      } else {
        RaisedOnGrid(qty, f, mark);
        RaiseIsLeast(qty, f, Some(mark));
        NormalizeFixes(r.value, f, Some(mark));
      }
    }
  }

  lemma NonPositiveKept(q: real, filters: Option<Filters>, mark: Option<real>)
    requires q <= 0.0
    ensures Normalize(q, filters, mark) == Success(q)
  {
  }

  lemma NormalizedIsOnGrid(qty: real, f: Filters, mark: real)
    requires qty > 0.0 && mark > 0.0 && Normalize(qty, Some(f), Some(mark)).Success?
    ensures !StaysOffGrid(qty, f, mark)
  {
    hide RoundDown;
    RoundDownIsGreatest(qty, f.step);
  }

  // 1.5 units at price 1 with step 1 and a notional floor of 1.2 are prepared as 1.5, which order
  // placement then rounds to 1 and refuses. 1 unit with a minimum of 1.5 fares the same.
  lemma StraddledOrderIsRefused()
    ensures var f := Filters(1.0, 1.0, 1.2);
      && Prepare(Some(1.5), Some(2.0), None, Steady(f, 1.0), None) == Success(1.5)
      && Normalize(1.5, Some(f), Some(1.0)) == Failure(BelowMinNotional)
    ensures var f := Filters(1.0, 1.5, 0.0);
      && Prepare(Some(1.0), Some(2.0), None, Steady(f, 1.0), None) == Success(1.5)
      && Normalize(1.5, Some(f), Some(1.0)) == Failure(BelowMinQty)
  {
    assert 1.5 / 1.0 == 1.5 && 1.5.Floor == 1 && 1.0 / 1.0 == 1.0 && 1.0.Floor == 1;
  }
}
