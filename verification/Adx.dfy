/** Average directional index over candles, and the bounds its readers rely on. */
module Adx {
  import opened Reals
  import opened Wrappers

  // ---------------------------------------------------------------- running moving average

  function Smooth(avg: real, value: real, period: nat): real
    requires period > 0
  {
    (avg * (period - 1) as real + value) / period as real
  }

  // Entry i of the running moving average: the plain mean first, then exponential smoothing.
  function RmaAt(values: seq<real>, period: nat, i: nat): real
    requires 0 < period && period + i <= |values|
  {
    if i == 0 then Sum(values[..period]) / period as real
    else Smooth(RmaAt(values, period, i - 1), values[period + i - 1], period)
  }

  // The old average weighs period - 1 times as much as the new value.
  predicate WeighedIn(avg: real, value: real, next: real, period: nat)
    requires period > 0
  {
    next * period as real == avg * (period - 1) as real + value
  }

  // The first entry is the plain mean, and each value is weighed into the next.
  ghost predicate Weighted(result: seq<real>, values: seq<real>, period: nat)
    requires period > 0 && |result| == if |values| < period then 0 else |values| - period + 1
  {
    && (result != [] ==> result[0] * period as real == Sum(values[..period]))
    && forall i :: 0 < i < |result| ==> WeighedIn(result[i - 1], values[period + i - 1], result[i], period)
  }

  method Rma(values: seq<real>, period: nat) returns (result: seq<real>)
    requires period > 0
    ensures |result| == if |values| < period then 0 else |values| - period + 1
    ensures forall i :: 0 <= i < |result| ==> result[i] == RmaAt(values, period, i)
    ensures Weighted(result, values, period)
  {
    hide Smooth, Sum, Weighted;
    if |values| < period {
      RmaIsWeighted([], values, period);
      return [];
    }
    var avg := Sum(values[..period]) / period as real;
    result := [avg];
    for i := period to |values|
      invariant |result| == i - period + 1
      invariant avg == RmaAt(values, period, i - period)
      invariant forall j :: 0 <= j < |result| ==> result[j] == RmaAt(values, period, j)
    {
      avg := Smooth(avg, values[i], period);
      result := result + [avg];
    }
    RmaIsWeighted(result, values, period);
  }

  lemma RmaIsWeighted(result: seq<real>, values: seq<real>, period: nat)
    requires period > 0 && |result| == (if |values| < period then 0 else |values| - period + 1)
    requires forall i :: 0 <= i < |result| ==> result[i] == RmaAt(values, period, i)
    ensures Weighted(result, values, period)
  {
    hide Smooth, Sum;
    if result != [] {
      DivMul(Sum(values[..period]), period as real);
    }
    forall i | 0 < i < |result| ensures WeighedIn(result[i - 1], values[period + i - 1], result[i], period) {
      SmoothWeighs(result[i - 1], values[period + i - 1], period);
    }
  }

  lemma SmoothWeighs(avg: real, value: real, period: nat)
    requires period > 0
    ensures WeighedIn(avg, value, Smooth(avg, value, period), period)
  {
    DivMul(avg * (period - 1) as real + value, period as real);
  }

  lemma SumMean(x: real, y: real, z: real, k: real)
    requires 0.0 <= x && 0.0 <= y && x + y <= z && 0.0 < k
    ensures 0.0 <= x / k && 0.0 <= y / k && x / k + y / k <= z / k
  {
    DivMul(x, k);
    DivMul(y, k);
    DivMul(z, k);
    MeanOf(x, y, z, k, x / k, y / k, z / k);
  }

  lemma MeanOf(x: real, y: real, z: real, k: real, a: real, b: real, c: real)
    requires 0.0 <= x && 0.0 <= y && x + y <= z && 0.0 < k
    requires a * k == x && b * k == y && c * k == z
    ensures 0.0 <= a && 0.0 <= b && a + b <= c
  {
    MulAdd(a, b, k);
    MulCancel(0.0, a, k);
    MulCancel(0.0, b, k);
    MulCancel(a + b, c, k);
  }

  // One smoothing step keeps x, y non-negative and x + y at most z.
  lemma SmoothBelow(x: real, y: real, z: real, u: real, v: real, w: real, period: nat)
    requires period > 0
    requires 0.0 <= x && 0.0 <= y && x + y <= z
    requires 0.0 <= u && 0.0 <= v && u + v <= w
    ensures 0.0 <= Smooth(x, u, period) && 0.0 <= Smooth(y, v, period)
    ensures Smooth(x, u, period) + Smooth(y, v, period) <= Smooth(z, w, period)
  {
    var k := (period - 1) as real;
    MulMono(0.0, x, k);
    MulMono(0.0, y, k);
    MulAdd(x, y, k);
    MulMono(x + y, z, k);
    SumMean(x * k + u, y * k + v, z * k + w, period as real);
  }

  // The list c dominates the sum of the non-negative lists a and b.
  ghost predicate Dominates(a: seq<real>, b: seq<real>, c: seq<real>) {
    && |a| == |b| == |c|
    && forall i :: 0 <= i < |a| ==> 0.0 <= a[i] && 0.0 <= b[i] && a[i] + b[i] <= c[i]
  }

  lemma {:induction false} SumDominates(a: seq<real>, b: seq<real>, c: seq<real>)
    requires Dominates(a, b, c)
    ensures 0.0 <= Sum(a) && 0.0 <= Sum(b) && Sum(a) + Sum(b) <= Sum(c)
  {
    if a != [] {
      var n := |a| - 1;
      SumDominates(a[..n], b[..n], c[..n]);
    }
  }

  // The running average is additive and monotone enough to carry domination over.
  lemma {:induction false} RmaDominates(a: seq<real>, b: seq<real>, c: seq<real>, period: nat, i: nat)
    requires Dominates(a, b, c) && 0 < period && period + i <= |a|
    ensures 0.0 <= RmaAt(a, period, i) && 0.0 <= RmaAt(b, period, i)
    ensures RmaAt(a, period, i) + RmaAt(b, period, i) <= RmaAt(c, period, i)
  {
    hide Smooth, Sum;
    if i == 0 {
      SumDominates(a[..period], b[..period], c[..period]);
      SumMean(Sum(a[..period]), Sum(b[..period]), Sum(c[..period]), period as real);
    } else {
      RmaDominates(a, b, c, period, i - 1);
      var j := period + i - 1;
      SmoothBelow(RmaAt(a, period, i - 1), RmaAt(b, period, i - 1), RmaAt(c, period, i - 1),
                  a[j], b[j], c[j], period);
    }
  }

  // The running average of values between 0 and `top` stays there.
  lemma {:induction false} RmaWithin(values: seq<real>, top: real, period: nat, i: nat)
    requires 0 < period && period + i <= |values| && 0.0 <= top
    requires forall j :: 0 <= j < |values| ==> 0.0 <= values[j] <= top
    ensures 0.0 <= RmaAt(values, period, i) <= top
  {
    var zeros, tops := seq(|values|, _ => 0.0), seq(|values|, _ => top);
    RmaDominates(values, zeros, tops, period, i);
    RmaConstant(zeros, 0.0, period, i);
    RmaConstant(tops, top, period, i);
  }

  lemma {:induction false} RmaConstant(values: seq<real>, c: real, period: nat, i: nat)
    requires 0 < period && period + i <= |values|
    requires forall j :: 0 <= j < |values| ==> values[j] == c
    ensures RmaAt(values, period, i) == c
  {
    hide Smooth, Sum;
    if i == 0 {
      SumConstant(values[..period], c);
      Quotient(c, period as real);
    } else {
      RmaConstant(values, c, period, i - 1);
      SmoothConstant(c, period);
    }
  }

  lemma {:induction false} SumConstant(values: seq<real>, c: real)
    requires forall j :: 0 <= j < |values| ==> values[j] == c
    ensures Sum(values) == c * |values| as real
  {
    if values != [] {
      var n := |values| - 1;
      SumConstant(values[..n], c);
      OneMore(c, n as real);
    }
  }

  lemma OneMore(c: real, n: real)
    ensures c * (n + 1.0) == c * n + c
  {
  }

  lemma Quotient(c: real, k: real)
    requires k != 0.0
    ensures c * k / k == c
  {
  }

  lemma SmoothConstant(c: real, period: nat)
    requires period > 0
    ensures Smooth(c, c, period) == c
  {
    OneMore(c, (period - 1) as real);
    Quotient(c, period as real);
  }

  // ---------------------------------------------------------------- candles

  ghost predicate ValidCandles(high: seq<real>, low: seq<real>, close: seq<real>) {
    && |high| == |low| == |close|
    && forall i :: 0 <= i < |high| ==> low[i] <= close[i] <= high[i]
  }

  function TrueRangeAt(high: seq<real>, low: seq<real>, close: seq<real>, i: nat): real
    requires i < |high| == |low| == |close|
  {
    if i == 0 then high[0] - low[0]
    else Max(Max(high[i] - low[i], Abs(high[i] - close[i - 1])), Abs(low[i] - close[i - 1]))
  }

  function PlusDmAt(high: seq<real>, low: seq<real>, i: nat): real
    requires i < |high| == |low|
  {
    if i == 0 then 0.0
    else
      var up, down := high[i] - high[i - 1], low[i - 1] - low[i];
      if up > down && up > 0.0 then up else 0.0
  }

  function MinusDmAt(high: seq<real>, low: seq<real>, i: nat): real
    requires i < |high| == |low|
  {
    if i == 0 then 0.0
    else
      var up, down := high[i] - high[i - 1], low[i - 1] - low[i];
      if down > up && down > 0.0 then down else 0.0
  }

  // The true range is the greatest distance between two of the high, the low and the close before.
  lemma TrueRangeIsGreatest(high: seq<real>, low: seq<real>, close: seq<real>, i: nat)
    requires 0 < i < |high| == |low| == |close| && low[i] <= high[i]
    ensures var tr, before := TrueRangeAt(high, low, close, i), close[i - 1];
      && high[i] - low[i] <= tr && high[i] - before <= tr && before - high[i] <= tr
      && low[i] - before <= tr && before - low[i] <= tr
      && (tr == high[i] - low[i] || tr == high[i] - before || tr == before - low[i])
  {
  }

  // The greater of the moves past the previous extremes counts on its side if it is positive; the other side,
  // and both in a tie, show none.
  lemma MovementIs(high: seq<real>, low: seq<real>, i: nat)
    requires 0 < i < |high| == |low|
    ensures var up, down := high[i] - high[i - 1], low[i - 1] - low[i];
      && (PlusDmAt(high, low, i) != 0.0 <==> up > down && up > 0.0)
      && (MinusDmAt(high, low, i) != 0.0 <==> down > up && down > 0.0)
      && (up != down ==> PlusDmAt(high, low, i) + MinusDmAt(high, low, i) == Max(0.0, Max(up, down)))
  {
  }

  // Directional movement never exceeds the true range of its candle.
  lemma MovementWithinRange(high: seq<real>, low: seq<real>, close: seq<real>, i: nat)
    requires ValidCandles(high, low, close) && i < |high|
    ensures 0.0 <= PlusDmAt(high, low, i) && 0.0 <= MinusDmAt(high, low, i)
    ensures PlusDmAt(high, low, i) + MinusDmAt(high, low, i) <= TrueRangeAt(high, low, close, i)
  {
  }

  // Candle by candle: movement leaves the true range exactly when the candle gaps past the previous extreme
  // while the previous close lies beyond that extreme, by less than takes it out of reach again.
  lemma MovementExceedsRangeIff(high: seq<real>, low: seq<real>, close: seq<real>, i: nat)
    requires |high| == |low| == |close| && 0 < i < |high| && low[i] <= high[i]
    ensures var up, down := PlusDmAt(high, low, i), MinusDmAt(high, low, i);
      up + down > TrueRangeAt(high, low, close, i) <==>
        || (up > 0.0 && high[i - 1] < low[i] && high[i - 1] < close[i - 1] < low[i] + up)
        || (down > 0.0 && high[i] < low[i - 1] && high[i] - down < close[i - 1] < low[i - 1])
  {
  }

  function TrueRanges(high: seq<real>, low: seq<real>, close: seq<real>): (s: seq<real>)
    requires |high| == |low| == |close|
    ensures |s| == |high|
  {
    seq(|high|, i requires 0 <= i < |high| => TrueRangeAt(high, low, close, i))
  }

  function PlusDms(high: seq<real>, low: seq<real>): (s: seq<real>)
    requires |high| == |low|
    ensures |s| == |high|
  {
    seq(|high|, i requires 0 <= i < |high| => PlusDmAt(high, low, i))
  }

  function MinusDms(high: seq<real>, low: seq<real>): (s: seq<real>)
    requires |high| == |low|
    ensures |s| == |high|
  {
    seq(|high|, i requires 0 <= i < |high| => MinusDmAt(high, low, i))
  }

  method TrueRange(high: seq<real>, low: seq<real>, close: seq<real>) returns (tr: seq<real>)
    requires |high| == |low| == |close| > 0
    ensures tr == TrueRanges(high, low, close)
    ensures tr[0] == high[0] - low[0]
  {
    tr := [high[0] - low[0]];
    for i := 1 to |high|
      invariant |tr| == i
      invariant forall j :: 0 <= j < i ==> tr[j] == TrueRangeAt(high, low, close, j)
    {
      var hl := high[i] - low[i];
      var hc := Abs(high[i] - close[i - 1]);
      var lc := Abs(low[i] - close[i - 1]);
      tr := tr + [Max(Max(hl, hc), lc)];
    }
  }

  method DirectionalMovement(high: seq<real>, low: seq<real>) returns (plus: seq<real>, minus: seq<real>)
    requires |high| == |low| > 0
    ensures plus == PlusDms(high, low) && minus == MinusDms(high, low)
    ensures plus[0] == minus[0] == 0.0
  {
    plus, minus := [0.0], [0.0];
    for i := 1 to |high|
      invariant |plus| == |minus| == i
      invariant forall j :: 0 <= j < i ==> plus[j] == PlusDmAt(high, low, j) && minus[j] == MinusDmAt(high, low, j)
    {
      var up := high[i] - high[i - 1];
      var down := low[i - 1] - low[i];
      if up > down && up > 0.0 { plus := plus + [up]; } else { plus := plus + [0.0]; }
      if down > up && down > 0.0 { minus := minus + [down]; } else { minus := minus + [0.0]; }
    }
  }

  // ---------------------------------------------------------------- DI, DX, ADX

  function Di(dm: real, atr: real): real {
    if atr != 0.0 then 100.0 * dm / atr else 0.0
  }

  function Dx(plusDi: real, minusDi: real): real {
    var total := plusDi + minusDi;
    if total != 0.0 then 100.0 * Abs(plusDi - minusDi) / total else 0.0
  }

  // The indicators are hundredths: of the average range, and of what both sides show together.
  lemma IndicatorsAreShares(dm: real, atr: real, p: real, m: real)
    ensures atr != 0.0 ==> Di(dm, atr) * atr == 100.0 * dm
    ensures atr == 0.0 ==> Di(dm, atr) == 0.0
    ensures p + m != 0.0 ==> Dx(p, m) * (p + m) == 100.0 * (if p < m then m - p else p - m)
    ensures p + m == 0.0 ==> Dx(p, m) == 0.0
  {
    if atr != 0.0 {
      QuotientTimes(100.0 * dm, atr);
    }
    if p + m != 0.0 {
      QuotientTimes(100.0 * Abs(p - m), p + m);
    }
  }

  lemma QuotientTimes(a: real, k: real)
    requires k != 0.0
    ensures a / k * k == a
  {
  }

  lemma DiBounds(plus: real, minus: real, atr: real)
    requires 0.0 <= plus && 0.0 <= minus && plus + minus <= atr
    ensures 0.0 <= Di(plus, atr) && 0.0 <= Di(minus, atr)
    ensures Di(plus, atr) + Di(minus, atr) <= 100.0
  {
    if atr != 0.0 {
      SumMean(100.0 * plus, 100.0 * minus, 100.0 * atr, atr);
      Quotient(100.0, atr);
    }
  }

  lemma DxBounds(p: real, m: real)
    requires 0.0 <= p && 0.0 <= m
    ensures 0.0 <= Dx(p, m) <= 100.0
  {
    if p + m != 0.0 {
      SumMean(100.0 * Abs(p - m), 0.0, 100.0 * (p + m), p + m);
      Quotient(100.0, p + m);
    }
  }

  function PlusDiAt(high: seq<real>, low: seq<real>, close: seq<real>, period: nat, i: nat): real
    requires |high| == |low| == |close| && 0 < period && period + i <= |high|
  {
    Di(RmaAt(PlusDms(high, low), period, i), RmaAt(TrueRanges(high, low, close), period, i))
  }

  function MinusDiAt(high: seq<real>, low: seq<real>, close: seq<real>, period: nat, i: nat): real
    requires |high| == |low| == |close| && 0 < period && period + i <= |high|
  {
    Di(RmaAt(MinusDms(high, low), period, i), RmaAt(TrueRanges(high, low, close), period, i))
  }

  function Dxs(high: seq<real>, low: seq<real>, close: seq<real>, period: nat): (s: seq<real>)
    requires |high| == |low| == |close| && 0 < period <= |high|
    ensures |s| == |high| - period + 1
  {
    seq(|high| - period + 1, i requires 0 <= i < |high| - period + 1 =>
      Dx(PlusDiAt(high, low, close, period, i), MinusDiAt(high, low, close, period, i)))
  }

  // At every index the directional indicators are non-negative and share at most 100.
  lemma IndicatorBounds(high: seq<real>, low: seq<real>, close: seq<real>, period: nat, i: nat)
    requires ValidCandles(high, low, close) && 0 < period && period + i <= |high|
    ensures 0.0 <= PlusDiAt(high, low, close, period, i)
    ensures 0.0 <= MinusDiAt(high, low, close, period, i)
    ensures PlusDiAt(high, low, close, period, i) + MinusDiAt(high, low, close, period, i) <= 100.0
  {
    hide RmaAt, Di;
    var plus, minus, tr := PlusDms(high, low), MinusDms(high, low), TrueRanges(high, low, close);
    forall j | 0 <= j < |high| ensures 0.0 <= plus[j] && 0.0 <= minus[j] && plus[j] + minus[j] <= tr[j] {
      MovementWithinRange(high, low, close, j);
    }
    RmaDominates(plus, minus, tr, period, i);
    DiBounds(RmaAt(plus, period, i), RmaAt(minus, period, i), RmaAt(tr, period, i));
  }

  // At every index the ADX lies between 0 and 100.
  lemma AdxBounds(high: seq<real>, low: seq<real>, close: seq<real>, period: nat, i: nat)
    requires ValidCandles(high, low, close) && 0 < period <= |high| && 2 * period + i <= |high| + 1
    ensures 0.0 <= RmaAt(Dxs(high, low, close, period), period, i) <= 100.0
  {
    hide RmaAt, Dx, PlusDiAt, MinusDiAt;
    var dxs := Dxs(high, low, close, period);
    forall j | 0 <= j < |dxs| ensures 0.0 <= dxs[j] <= 100.0 {
      IndicatorBounds(high, low, close, period, j);
      DxBounds(PlusDiAt(high, low, close, period, j), MinusDiAt(high, low, close, period, j));
    }
    RmaWithin(dxs, 100.0, period, i);
  }

  // ---------------------------------------------------------------- trends

  // Every candle reaches a higher high and none makes a lower low, or the reverse.
  ghost predicate Rising(high: seq<real>, low: seq<real>) {
    |high| == |low| && forall i :: 0 < i < |high| ==> high[i - 1] < high[i] && low[i - 1] <= low[i]
  }

  ghost predicate Falling(high: seq<real>, low: seq<real>) {
    |high| == |low| && forall i :: 0 < i < |high| ==> high[i] <= high[i - 1] && low[i] < low[i - 1]
  }

  lemma {:induction false} SumPositive(values: seq<real>)
    requires |values| >= 2 && 0.0 <= values[0] && forall j :: 0 < j < |values| ==> 0.0 < values[j]
    ensures 0.0 < Sum(values)
  {
    if |values| > 2 {
      SumPositive(values[..|values| - 1]);
    } else {
      assert Sum(values[..1]) == Sum(values[..1][..0]) + values[0];
    }
  }

  lemma SmoothPositive(avg: real, value: real, period: nat)
    requires period > 0 && 0.0 < avg && 0.0 < value
    ensures 0.0 < Smooth(avg, value, period)
  {
    MulMono(0.0, avg, (period - 1) as real);
    QuotientPositive(avg * (period - 1) as real + value, period as real);
  }

  lemma QuotientPositive(a: real, k: real)
    requires 0.0 < a && 0.0 < k
    ensures 0.0 < a / k
  {
    DivMul(a, k);
    if a / k <= 0.0 {
      MulMono(a / k, 0.0, k);
    }
  }

  // With a period of at least 2 the first, zero movement is outweighed at once.
  lemma {:induction false} RmaPositive(values: seq<real>, period: nat, i: nat)
    requires 2 <= period && period + i <= |values|
    requires 0.0 <= values[0] && forall j :: 0 < j < |values| ==> 0.0 < values[j]
    ensures 0.0 < RmaAt(values, period, i)
  {
    hide Smooth, Sum;
    if i == 0 {
      SumPositive(values[..period]);
      QuotientPositive(Sum(values[..period]), period as real);
    } else {
      RmaPositive(values, period, i - 1);
      SmoothPositive(RmaAt(values, period, i - 1), values[period + i - 1], period);
    }
  }

  lemma OneSided(dm: real, atr: real)
    requires 0.0 < dm <= atr
    ensures Di(0.0, atr) == 0.0 < Di(dm, atr)
    ensures Dx(Di(dm, atr), 0.0) == Dx(0.0, Di(dm, atr)) == 100.0
  {
    QuotientPositive(100.0 * dm, atr);
    Quotient(100.0, Di(dm, atr));
  }

  // A clean trend shows on one side only, and its index is 100.
  lemma TrendAt(high: seq<real>, low: seq<real>, close: seq<real>, period: nat, i: nat)
    requires ValidCandles(high, low, close) && 2 <= period && period + i <= |high|
    requires Rising(high, low) || Falling(high, low)
    ensures var p, m := PlusDiAt(high, low, close, period, i), MinusDiAt(high, low, close, period, i);
      && (Rising(high, low) ==> m == 0.0 < p)
      && (Falling(high, low) ==> p == 0.0 < m)
      && Dx(p, m) == 100.0
  {
    hide RmaAt, Di, Dx;
    var plus, minus, tr := PlusDms(high, low), MinusDms(high, low), TrueRanges(high, low, close);
    forall j | 0 <= j < |high| ensures 0.0 <= plus[j] && 0.0 <= minus[j] && plus[j] + minus[j] <= tr[j] {
      MovementWithinRange(high, low, close, j);
    }
    RmaDominates(plus, minus, tr, period, i);
    assert Rising(high, low) ==> high[0] < high[1];
    if Rising(high, low) {
      RmaPositive(plus, period, i);
      RmaConstant(minus, 0.0, period, i);
      OneSided(RmaAt(plus, period, i), RmaAt(tr, period, i));
    } else {
      RmaPositive(minus, period, i);
      RmaConstant(plus, 0.0, period, i);
      OneSided(RmaAt(minus, period, i), RmaAt(tr, period, i));
    }
  }

  // The ADX of a clean trend is 100 from its first value on, in either direction.
  lemma TrendReadsHundred(high: seq<real>, low: seq<real>, close: seq<real>, period: nat, i: nat)
    requires ValidCandles(high, low, close) && 2 <= period <= |high| && 2 * period + i <= |high| + 1
    requires Rising(high, low) || Falling(high, low)
    ensures RmaAt(Dxs(high, low, close, period), period, i) == 100.0
  {
    hide RmaAt, Dx, PlusDiAt, MinusDiAt;
    var dxs := Dxs(high, low, close, period);
    forall j | 0 <= j < |dxs| ensures dxs[j] == 100.0 {
      TrendAt(high, low, close, period, j);
    }
    RmaConstant(dxs, 100.0, period, i);
  }

  // ---------------------------------------------------------------- the indicator

  // The latest ADX, +DI and -DI, each None when there are too few candles.
  method ComputeAdx(high: seq<real>, low: seq<real>, close: seq<real>, period: nat)
    returns (adx: Option<real>, plusDi: Option<real>, minusDi: Option<real>)
    requires |high| == |low| == |close| && period > 0
    ensures plusDi.Some? == minusDi.Some? == (|high| >= period + 1)
    ensures adx.Some? <==> |high| >= period + 1 && |high| + 1 >= 2 * period
    ensures plusDi.Some? ==>
      && plusDi.value == PlusDiAt(high, low, close, period, |high| - period)
      && minusDi.value == MinusDiAt(high, low, close, period, |high| - period)
    ensures adx.Some? ==> adx.value == RmaAt(Dxs(high, low, close, period), period, |high| + 1 - 2 * period)
    ensures ValidCandles(high, low, close) && plusDi.Some? ==>
      0.0 <= plusDi.value && 0.0 <= minusDi.value && plusDi.value + minusDi.value <= 100.0
    ensures ValidCandles(high, low, close) && adx.Some? ==> 0.0 <= adx.value <= 100.0
  {
    hide RmaAt, Di, Dx, Weighted;
    var n := |high|;
    if n < period + 1 {
      return None, None, None;
    }
    var tr := TrueRange(high, low, close);
    var plusDm, minusDm := DirectionalMovement(high, low);
    var atr := Rma(tr, period);
    var plusSmooth := Rma(plusDm, period);
    var minusSmooth := Rma(minusDm, period);
    var dxs: seq<real>, pdi, mdi := [], 0.0, 0.0;
    for i := 0 to |atr|
      invariant |dxs| == i
      invariant forall j :: 0 <= j < i ==> dxs[j] == Dxs(high, low, close, period)[j]
      invariant i > 0 ==> pdi == PlusDiAt(high, low, close, period, i - 1)
      invariant i > 0 ==> mdi == MinusDiAt(high, low, close, period, i - 1)
    {
      pdi := Di(plusSmooth[i], atr[i]);
      mdi := Di(minusSmooth[i], atr[i]);
      dxs := dxs + [Dx(pdi, mdi)];
    }
    assert dxs == Dxs(high, low, close, period);
    var adxs := Rma(dxs, period);
    plusDi, minusDi := Some(pdi), Some(mdi);
    adx := if adxs != [] then Some(adxs[|adxs| - 1]) else None;
    if ValidCandles(high, low, close) {
      IndicatorBounds(high, low, close, period, n - period);
      if adxs != [] {
        AdxBounds(high, low, close, period, |adxs| - 1);
      }
    }
  }

  // Such a candle spoils the indicators: a close above its high makes +DI four times its bound.
  lemma MalformedCandle()
    ensures PlusDiAt([10.0, 12.0], [9.0, 11.5], [12.0, 12.0], 1, 1) == 400.0
  {
    var high, low, close := [10.0, 12.0], [9.0, 11.5], [12.0, 12.0];
    assert TrueRangeAt(high, low, close, 1) == 0.5;
    assert PlusDmAt(high, low, 1) == 2.0;
    assert Smooth(RmaAt(PlusDms(high, low), 1, 0), 2.0, 1) == 2.0;
    assert Smooth(RmaAt(TrueRanges(high, low, close), 1, 0), 0.5, 1) == 0.5;
  }
}
