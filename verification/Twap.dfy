/** Planning a parent order as slices: whole units, the notional floor, and alignment to the step. */
module Twap {
  import opened Reals
  import opened Wrappers

  datatype Error = DivisionByZero

  // A child order: its index in the plan (part of its id), its size, and the attached triggers.
  datatype Child = Child(index: nat, quantity: real, takeProfit: Option<real>, stopLoss: Option<real>)

  datatype Parent = Parent(quantity: real, price: Option<real>, takeProfit: Option<real>, stopLoss: Option<real>)

  datatype Config = Config(minSlices: int, maxSlices: int, minSliceQty: real)

  predicate Positive(x: Option<real>) {
    x.Some? && x.value > 0.0
  }

  lemma SumNothing()
    ensures Sum([]) == 0.0
  {
  }

  lemma SumSnoc(s: seq<real>, x: real)
    ensures Sum(s + [x]) == Sum(s) + x
  {
    assert (s + [x])[..|s|] == s;
  }

  lemma {:induction false} SumBelow(a: seq<real>, b: seq<real>)
    requires |a| == |b| && forall i :: 0 <= i < |a| ==> a[i] <= b[i]
    ensures Sum(a) <= Sum(b)
  {
    if a != [] {
      SumBelow(a[..|a| - 1], b[..|b| - 1]);
    }
  }

  // ---------------------------------------------------------------- whole units per slice

  // Units of slice i of `count`: an even share, with the remainder spread over the first slices.
  function UnitsAt(total: nat, count: nat, i: nat): nat
    requires count > 0
  {
    total / count + if i < total % count then 1 else 0
  }

  function UnitsBefore(total: nat, count: nat, i: nat): nat
    requires count > 0
  {
    if i == 0 then 0 else UnitsBefore(total, count, i - 1) + UnitsAt(total, count, i - 1)
  }

  lemma {:induction false} UnitsBeforeClosed(total: nat, count: nat, i: nat)
    requires count > 0
    ensures UnitsBefore(total, count, i) == i * (total / count) + (if i < total % count then i else total % count)
  {
    if i > 0 {
      UnitsBeforeClosed(total, count, i - 1);
      assert i * (total / count) == (i - 1) * (total / count) + total / count;
    }
  }

  // The slices hold all the units, and no two differ by more than one.
  lemma UnitsConserved(total: nat, count: nat)
    requires count > 0
    ensures UnitsBefore(total, count, count) == total
    ensures forall i, j :: 0 <= i < count && 0 <= j < count ==>
      UnitsAt(total, count, i) <= UnitsAt(total, count, j) + 1
  {
    UnitsBeforeClosed(total, count, count);
  }

  // The size of that many whole units.
  function Lots(unit: real, units: nat): real {
    unit * units as real
  }

  lemma LotsProduct(unit: real, units: nat)
    ensures units as real * unit == Lots(unit, units)
  {
  }

  lemma LotsMono(unit: real, a: nat, b: nat)
    requires unit > 0.0 && a <= b
    ensures Lots(unit, a) <= Lots(unit, b)
  {
    MulMono(a as real, b as real, unit);
  }

  lemma LotsAbove(q: real, units: nat, unit: real)
    requires unit > 0.0 && q < units as real
    ensures q * unit < Lots(unit, units)
  {
    MulStrict(q, units as real, unit);
  }

  lemma NoLots(unit: real)
    ensures Lots(unit, 0) == 0.0
  {
  }

  // The non-empty among the first k shares, in order.
  function Raw(total: nat, count: nat, unit: real, k: nat): seq<real>
    requires count > 0
  {
    if k == 0 then []
    else
      var front := Raw(total, count, unit, k - 1);
      var units := UnitsAt(total, count, k - 1);
      if units < 1 then front else front + [Lots(unit, units)]
  }

  lemma RawStep(total: nat, count: nat, unit: real, k: nat)
    requires count > 0
    ensures UnitsAt(total, count, k) < 1 ==> Raw(total, count, unit, k + 1) == Raw(total, count, unit, k)
    ensures UnitsAt(total, count, k) >= 1 ==>
      Raw(total, count, unit, k + 1) == Raw(total, count, unit, k) + [Lots(unit, UnitsAt(total, count, k))]
  {
  }

  lemma RawNothing(total: nat, count: nat, unit: real)
    requires count > 0
    ensures Raw(total, count, unit, 0) == []
  {
  }

  lemma {:induction false} RawSum(total: nat, count: nat, unit: real, k: nat)
    requires count > 0
    ensures Sum(Raw(total, count, unit, k)) == Lots(unit, UnitsBefore(total, count, k))
  {
    hide UnitsAt, Raw, Sum, UnitsBefore, Lots;
    if k == 0 {
      RawNothing(total, count, unit);
      SumNothing();
      UnitsStart(total, count);
      NoLots(unit);
    } else {
      var before, units := UnitsBefore(total, count, k - 1), UnitsAt(total, count, k - 1);
      RawSum(total, count, unit, k - 1);
      RawStep(total, count, unit, k - 1);
      UnitsStep(total, count, k - 1);
      MoreUnits(before, units, unit);
      NoLots(unit);
      if units >= 1 {
        SumSnoc(Raw(total, count, unit, k - 1), Lots(unit, units));
      }
    }
  }

  lemma UnitsStart(total: nat, count: nat)
    requires count > 0
    ensures UnitsBefore(total, count, 0) == 0
  {
  }

  lemma UnitsStep(total: nat, count: nat, i: nat)
    requires count > 0
    ensures UnitsBefore(total, count, i + 1) == UnitsBefore(total, count, i) + UnitsAt(total, count, i)
  {
  }

  lemma MoreUnits(a: nat, b: nat, unit: real)
    ensures Lots(unit, a + b) == Lots(unit, a) + Lots(unit, b)
  {
    MulAdd(a as real, b as real, unit);
  }

  // The non-empty shares come first: as many as there are units, and no more than slices.
  lemma {:induction false} RawShape(total: nat, count: nat, unit: real, k: nat)
    requires count > 0 && k <= count
    ensures var raw := Raw(total, count, unit, k);
      && |raw| == (if total < k then total else k)
      && forall i :: 0 <= i < |raw| ==> raw[i] == Lots(unit, UnitsAt(total, count, i))
  {
    hide UnitsAt, Raw, Lots;
    if k == 0 {
      RawNothing(total, count, unit);
    } else {
      RawShape(total, count, unit, k - 1);
      RawStep(total, count, unit, k - 1);
      HasUnit(total, count, k - 1);
    }
  }

  lemma HasUnit(total: nat, count: nat, i: nat)
    requires i < count
    ensures UnitsAt(total, count, i) >= 1 <==> i < total
  {
    if total < count {
      SmallQuotient(total, count);
    } else {
      LargeQuotient(total, count);
    }
  }

  lemma SmallQuotient(total: nat, count: nat)
    requires total < count
    ensures total / count == 0 && total % count == total
  {
  }

  lemma LargeQuotient(total: nat, count: nat)
    requires 0 < count <= total
    ensures total / count >= 1
  {
    assert total == total / count * count + total % count;
  }

  // Shares never grow along the plan, and the last non-empty one is the rounded-down even share.
  lemma SharesDescend(total: nat, count: nat, i: nat, j: nat)
    requires count > 0 && i <= j
    ensures UnitsAt(total, count, j) <= UnitsAt(total, count, i)
  {
  }

  lemma LastShare(total: nat, count: nat)
    requires total > 0 && count > 0
    ensures var n := if total < count then total else count;
      UnitsAt(total, count, n - 1) == total / n
  {
    if total < count {
      SmallQuotient(total, count);
    }
  }

  lemma UnitPositive(unit: real, units: nat)
    requires unit > 0.0 && units >= 1
    ensures Lots(unit, units) > 0.0
  {
  }

  // ---------------------------------------------------------------- the slice count

  // Fewer, larger slices until an even share clears the notional floor.
  predicate Clears(qty: real, count: int, price: real, floor: real)
    requires count > 0
  {
    qty / count as real * price >= floor
  }

  function Reduced(qty: real, count: int, price: real, floor: real): int
    decreases count
  {
    if count <= 1 || Clears(qty, count, price, floor) then count else Reduced(qty, count - 1, price, floor)
  }

  // The result is the greatest count up to the given one whose even share clears the floor, or one.
  method ReduceCount(qty: real, count: int, price: real, floor: real) returns (reduced: int)
    ensures reduced == Reduced(qty, count, price, floor)
    ensures count <= 1 ==> reduced == count
    ensures count > 1 ==> 1 <= reduced <= count
    ensures reduced > 1 ==> Clears(qty, reduced, price, floor)
    ensures forall c :: 1 < c && reduced < c <= count ==> !Clears(qty, c, price, floor)
  {
    hide Clears;
    reduced := count;
    while reduced > 1
      invariant Reduced(qty, count, price, floor) == Reduced(qty, reduced, price, floor)
      invariant reduced <= count && (count > 1 ==> 1 <= reduced) && (count <= 1 ==> reduced == count)
      invariant forall c :: 1 < c && reduced < c <= count ==> !Clears(qty, c, price, floor)
      decreases reduced
    {
      if Clears(qty, reduced, price, floor) {
        break;
      }
      reduced := reduced - 1;
    }
  }

  lemma {:induction false} ReducedFacts(qty: real, count: int, price: real, floor: real)
    ensures var reduced := Reduced(qty, count, price, floor);
      && (count <= 1 ==> reduced == count)
      && (count > 1 ==> 1 <= reduced <= count)
      && (reduced > 1 ==> Clears(qty, reduced, price, floor))
    decreases count
  {
    hide Clears;
    if count > 1 && !Clears(qty, count, price, floor) {
      ReducedFacts(qty, count - 1, price, floor);
    }
  }

  function SliceCount(config: Config, total: nat, qty: real, price: Option<real>, floor: Option<real>): int {
    var wanted := if total < config.minSlices then config.minSlices else total;
    var count := if config.maxSlices < wanted then config.maxSlices else wanted;
    if Positive(floor) && Positive(price) then Reduced(qty, count, price.value, floor.value) else count
  }

  predicate ClearsWith(size: real, slack: real, price: real, floor: real) {
    (size + slack) * price > floor
  }

  // If more than one slice is left, every slice is less than one unit short of the floor.
  lemma SlicesNearlyClear(qty: real, unit: real, total: nat, count: nat, price: real, floor: real, i: nat)
    requires unit > 0.0 && price > 0.0 && count > 1 && i < count
    requires qty < Lots(unit, total + 1) && Clears(qty, count, price, floor)
    ensures ClearsWith(Lots(unit, UnitsAt(total, count, i)), unit, price, floor)
  {
    hide UnitsAt;
    var k := UnitsAt(total, count, i) + 1;
    var slice := Lots(unit, UnitsAt(total, count, i)) + unit;
    OneMoreUnit(unit, UnitsAt(total, count, i));
    ShareOfUnits(total, count, i);
    Regroup(unit, k, count);
    MulMono((total + 1) as real, (k * count) as real, unit);
    QuotientBelow(qty, slice, count as real);
    MulStrict(qty / count as real, slice, price);
  }

  lemma QuotientBelow(a: real, b: real, k: real)
    requires 0.0 < k && a < b * k
    ensures a / k < b
  {
    DivMul(a, k);
    MulCancelStrict(a / k, b, k);
  }

  lemma OneMoreUnit(unit: real, units: nat)
    ensures Lots(unit, units) + unit == Lots(unit, units + 1)
  {
  }

  lemma Regroup(unit: real, k: nat, count: nat)
    ensures Lots(unit, k) * count as real == Lots(unit, k * count)
  {
    assert k as real * count as real == (k * count) as real;
  }

  lemma ShareOfUnits(total: nat, count: nat, i: nat)
    requires count > 0
    ensures (UnitsAt(total, count, i) + 1) * count >= total + 1
  {
    assert total == total / count * count + total % count;
    assert (total / count + 1) * count == total / count * count + count;
    assert (UnitsAt(total, count, i) + 1) * count >= (total / count + 1) * count;
  }

  // ---------------------------------------------------------------- alignment

  function Aligned(q: real, step: real): real
    requires step > 0.0
  {
    var a := (q / step).Floor as real * step;
    if a <= 0.0 then q else a
  }

  // A whole number of steps, or dust smaller than one step.
  ghost predicate OnStep(q: real, step: real) {
    q < step || exists k: nat :: q == Lots(step, k)
  }

  lemma AlignedMono(p: real, q: real, step: real)
    requires step > 0.0 && 0.0 < p <= q
    ensures Aligned(p, step) <= Aligned(q, step)
  {
    hide Lots, Aligned;
    var a, b := Steps(p, step), Steps(q, step);
    DivMono(p, q, step);
    LotsMono(step, a, b);
    AlignedIs(p, step);
    AlignedIs(q, step);
    if a == 0 && b > 0 {
      LotsMono(step, 1, b);
    }
  }

  lemma DivMono(p: real, q: real, step: real)
    requires step > 0.0 && p <= q
    ensures p / step <= q / step
  {
    DivMul(p, step);
    DivMul(q, step);
    MulCancel(p / step, q / step, step);
  }

  // Whole steps in a positive quantity.
  function Steps(q: real, step: real): (n: nat)
    requires step > 0.0 && q > 0.0
    ensures n == (q / step).Floor
  {
    NonNegative(q, step);
    (q / step).Floor
  }

  lemma NonNegative(q: real, step: real)
    requires step > 0.0 && q > 0.0
    ensures 0.0 <= q / step
  {
    DivMul(q, step);
    MulCancel(0.0, q / step, step);
  }

  lemma AlignedIs(q: real, step: real)
    requires step > 0.0 && q > 0.0
    ensures Steps(q, step) >= 1 ==> Aligned(q, step) == Lots(step, Steps(q, step))
    ensures Steps(q, step) == 0 ==> Aligned(q, step) == q < Lots(step, 1)
  {
    hide Lots, Steps;
    var n := Steps(q, step);
    LotsProduct(step, n);
    if n >= 1 {
      UnitPositive(step, n);
    } else {
      NoLots(step);
      DivMul(q, step);
      LotsAbove(q / step, 1, step);
    }
  }

  lemma AlignedFacts(q: real, step: real)
    requires step > 0.0 && q > 0.0
    ensures 0.0 < Aligned(q, step) <= q < Aligned(q, step) + step && OnStep(Aligned(q, step), step)
  {
    hide Lots, Aligned;
    var n := Steps(q, step);
    AlignedIs(q, step);
    DivMul(q, step);
    OneMoreUnit(step, n);
    NoLots(step);
    LotsAbove(q / step, n + 1, step);
    LotsProduct(step, n);
    MulMono(n as real, q / step, step);
    if n >= 1 {
      UnitPositive(step, n);
    } else {
      UnitPositive(step, 1);
    }
  }

  // All but the last slice are rounded down to the step; the last takes what is left of qty.
  function AlignFront(raw: seq<real>, step: real): (aligned: seq<real>)
    requires step > 0.0
    ensures |aligned| == |raw| && forall i :: 0 <= i < |raw| ==> aligned[i] == Aligned(raw[i], step)
  {
    if raw == [] then [] else AlignFront(raw[..|raw| - 1], step) + [Aligned(raw[|raw| - 1], step)]
  }

  function AlignAll(raw: seq<real>, step: real, qty: real): (aligned: seq<real>)
    requires step > 0.0 && raw != []
    ensures |aligned| == |raw|
  {
    var front := AlignFront(raw[..|raw| - 1], step);
    front + [qty - Sum(front)]
  }

  lemma AlignAt(raw: seq<real>, step: real, qty: real, i: nat)
    requires step > 0.0 && i < |raw| - 1
    ensures AlignAll(raw, step, qty)[i] == Aligned(raw[i], step)
  {
    hide Aligned, Sum;
  }

  lemma AlignLast(raw: seq<real>, step: real, qty: real)
    requires step > 0.0 && raw != []
    ensures var front := AlignFront(raw[..|raw| - 1], step);
      AlignAll(raw, step, qty) == front + [qty - Sum(front)]
  {
  }

  lemma LastOnTop(raw: seq<real>)
    requires raw != []
    ensures Sum(raw) == Sum(raw[..|raw| - 1]) + raw[|raw| - 1]
  {
  }

  // Rounding down makes room: the last slice takes at least its raw share.
  lemma AlignSum(raw: seq<real>, step: real, qty: real)
    requires step > 0.0 && raw != [] && Sum(raw) <= qty
    requires forall i :: 0 <= i < |raw| ==> raw[i] > 0.0
    ensures var aligned, n := AlignAll(raw, step, qty), |raw| - 1;
      Sum(aligned) == qty && raw[n] <= aligned[n]
  {
    hide *;
    var n := |raw| - 1;
    var front := AlignFront(raw[..n], step);
    AlignLast(raw, step, qty);
    forall i | 0 <= i < n ensures front[i] <= raw[..n][i] {
      AlignedFacts(raw[i], step);
    }
    SumBelow(front, raw[..n]);
    SumSnoc(front, qty - Sum(front));
    LastOnTop(raw);
  }

  // The slices add up to qty; only the last can grow, the others lose less than a step.
  lemma AlignFacts(raw: seq<real>, step: real, qty: real)
    requires step > 0.0 && raw != [] && Sum(raw) <= qty
    requires forall i :: 0 <= i < |raw| ==> raw[i] > 0.0
    ensures var aligned, n := AlignAll(raw, step, qty), |raw| - 1;
      && Sum(aligned) == qty && raw[n] <= aligned[n]
      && (forall i :: 0 <= i <= n ==> aligned[i] > 0.0)
      && (forall i :: 0 <= i <= n ==> raw[i] < aligned[i] + step)
      && (forall i :: 0 <= i < n ==> aligned[i] == Aligned(raw[i], step) && OnStep(aligned[i], step))
  {
    hide Aligned, Sum, OnStep, AlignAll;
    AlignSum(raw, step, qty);
    var aligned, n := AlignAll(raw, step, qty), |raw| - 1;
    forall i | 0 <= i < n
      ensures aligned[i] == Aligned(raw[i], step) && 0.0 < aligned[i] && raw[i] < aligned[i] + step
      ensures OnStep(aligned[i], step)
    {
      AlignAt(raw, step, qty, i);
      AlignedFacts(raw[i], step);
    }
  }

  method Align(raw: seq<real>, step: real, qty: real) returns (aligned: seq<real>)
    requires step > 0.0 && |raw| > 1
    ensures aligned == AlignAll(raw, step, qty)
  {
    hide Aligned;
    aligned := [];
    var placed := 0.0;
    for i := 0 to |raw|
      invariant i < |raw| ==> aligned == AlignFront(raw[..i], step) && placed == Sum(aligned)
      invariant i == |raw| ==> aligned == AlignAll(raw, step, qty)
    {
      if i < |raw| - 1 {
        assert raw[..i + 1][..i] == raw[..i];
        var aq := Aligned(raw[i], step);
        SumSnoc(aligned, aq);
        aligned := aligned + [aq];
        placed := placed + aq;
      } else {
        assert raw[..i] == raw[..|raw| - 1];
        aligned := aligned + [qty - placed];
      }
    }
  }

  // ---------------------------------------------------------------- the plan

  // Whole units in the parent quantity.
  function WholeUnits(qty: real, unit: real): (total: nat)
    requires 0.0 < unit <= qty
    ensures total >= 1
  {
    UnitsFacts(qty, unit);
    (qty / unit).Floor
  }

  lemma UnitsFacts(qty: real, unit: real)
    requires 0.0 < unit <= qty
    ensures (qty / unit).Floor >= 1
    ensures Lots(unit, (qty / unit).Floor) <= qty < Lots(unit, (qty / unit).Floor + 1)
  {
    hide Lots;
    var q := qty / unit;
    DivMul(qty, unit);
    MulCancel(1.0, q, unit);
    var total: nat := q.Floor;
    MulMono(total as real, q, unit);
    LotsProduct(unit, total);
    LotsAbove(q, total + 1, unit);
  }

  predicate Realigns(raw: seq<real>, step: Option<real>) {
    Positive(step) && |raw| > 1
  }

  function Quantities(qty: real, unit: real, total: nat, count: int, step: Option<real>): seq<real> {
    if count <= 0 then []
    else
      var raw := Raw(total, count, unit, count);
      if Realigns(raw, step) then AlignAll(raw, step.value, qty) else raw
  }

  // The slice sizes. No sizes for a parent smaller than a unit; a zero unit or no slices divide by zero.
  function PlanSizes(config: Config, qty: real, price: Option<real>, step: Option<real>, floor: Option<real>):
    Result<seq<real>, Error>
  {
    var unit := config.minSliceQty;
    if qty <= 0.0 then Success([])
    else if unit == 0.0 then Failure(DivisionByZero)
    else if unit < 0.0 || qty < unit then Success([])
    else
      var total := WholeUnits(qty, unit);
      var count := SliceCount(config, total, qty, price, floor);
      if count == 0 then Failure(DivisionByZero) else Success(Quantities(qty, unit, total, count, step))
  }

  // Children in order; the triggers ride on the last one.
  function ChildrenOf(sizes: seq<real>, parent: Parent): seq<Child> {
    seq(|sizes|, i requires 0 <= i < |sizes| =>
      if i == |sizes| - 1 then Child(i, sizes[i], parent.takeProfit, parent.stopLoss) else Child(i, sizes[i], None, None))
  }

  function PlanOf(config: Config, parent: Parent, step: Option<real>, floor: Option<real>): Result<seq<Child>, Error> {
    match PlanSizes(config, parent.quantity, parent.price, step, floor)
    case Success(sizes) => Success(ChildrenOf(sizes, parent))
    case Failure(e) => Failure(e)
  }

  // Even distribution in whole units; a count below 1 makes no slices.
  method RawLoop(total: nat, count: int, unit: real) returns (raw: seq<real>)
    requires count != 0
    ensures raw == if count < 0 then [] else Raw(total, count, unit, count)
  {
    hide UnitsAt, Lots;
    raw := [];
    if count < 0 {
      return;
    }
    for i := 0 to count
      invariant raw == Raw(total, count, unit, i)
    {
      RawStep(total, count, unit, i);
      var units := UnitsAt(total, count, i);
      if units >= 1 {
        raw := raw + [Lots(unit, units)];
      }
    }
  }

  // Only positive sizes become children.
  method Children(sizes: seq<real>, parent: Parent) returns (children: seq<Child>)
    requires forall i :: 0 <= i < |sizes| ==> sizes[i] > 0.0
    ensures children == ChildrenOf(sizes, parent)
  {
    children := [];
    for i := 0 to |sizes|
      invariant |children| == i
      invariant forall j :: 0 <= j < i ==> children[j] == Child(j, sizes[j], None, None)
    {
      if sizes[i] > 0.0 {
        children := children + [Child(i, sizes[i], None, None)];
      }
    }
    if children != [] && (parent.takeProfit.Some? || parent.stopLoss.Some?) {
      var last := |children| - 1;
      children := children[last := children[last].(takeProfit := parent.takeProfit, stopLoss := parent.stopLoss)];
    }
  }

  method ChooseCount(config: Config, total: nat, qty: real, price: Option<real>, floor: Option<real>)
    returns (count: int)
    ensures count == SliceCount(config, total, qty, price, floor)
  {
    hide Clears, Reduced;
    count := if total < config.minSlices then config.minSlices else total;
    if config.maxSlices < count {
      count := config.maxSlices;
    }
    if Positive(floor) && Positive(price) {
      count := ReduceCount(qty, count, price.value, floor.value);
    }
  }

  lemma PlanFrom(config: Config, qty: real, price: Option<real>, step: Option<real>, floor: Option<real>)
    requires 0.0 < config.minSliceQty <= qty
    ensures var unit := config.minSliceQty;
      var total := WholeUnits(qty, unit);
      var count := SliceCount(config, total, qty, price, floor);
      PlanSizes(config, qty, price, step, floor) ==
        if count == 0 then Failure(DivisionByZero) else Success(Quantities(qty, unit, total, count, step))
  {
    hide WholeUnits, SliceCount, Quantities;
  }

  method ChooseSizes(config: Config, qty: real, price: Option<real>, step: Option<real>, floor: Option<real>)
    returns (r: Result<seq<real>, Error>)
    requires 0.0 < config.minSliceQty <= qty
    ensures r == PlanSizes(config, qty, price, step, floor)
  {
    hide UnitsAt, Sum, Raw, Lots, AlignAll, SliceCount, WholeUnits, PlanSizes;
    PlanFrom(config, qty, price, step, floor);
    var total := WholeUnits(qty, config.minSliceQty);
    var count := ChooseCount(config, total, qty, price, floor);
    if count == 0 {
      return Failure(DivisionByZero);
    }
    var sizes := RawLoop(total, count, config.minSliceQty);
    if Positive(step) && |sizes| > 1 {
      sizes := Align(sizes, step.value, qty);
    }
    return Success(sizes);
  }

  method Plan(config: Config, parent: Parent, step: Option<real>, floor: Option<real>)
    returns (r: Result<seq<Child>, Error>)
    ensures r == PlanOf(config, parent, step, floor)
  {
    hide WholeUnits, SliceCount, Quantities;
    var qty, unit := parent.quantity, config.minSliceQty;
    assert ChildrenOf([], parent) == [];
    if qty <= 0.0 {
      return Success([]);
    }
    if unit == 0.0 {
      return Failure(DivisionByZero);
    }
    if unit < 0.0 || qty < unit {
      return Success([]);
    }
    var chosen := ChooseSizes(config, qty, parent.price, step, floor);
    if chosen.Failure? {
      return Failure(chosen.error);
    }
    PlanIsSound(config, qty, parent.price, step, floor);
    var children := Children(chosen.value, parent);
    return Success(children);
  }

  // ---------------------------------------------------------------- what a plan guarantees

  // The raw shares: positive, as many as units and slices allow, and whole units of the parent in all.
  lemma RawFacts(total: nat, count: nat, unit: real)
    requires total > 0 && count > 0 && unit > 0.0
    ensures var raw := Raw(total, count, unit, count);
      && |raw| == (if total < count then total else count) > 0
      && Sum(raw) == Lots(unit, total)
      && forall i :: 0 <= i < |raw| ==> raw[i] == Lots(unit, UnitsAt(total, count, i)) > 0.0
  {
    hide UnitsAt, Raw, Lots, Sum, UnitsBefore;
    RawShape(total, count, unit, count);
    RawSum(total, count, unit, count);
    UnitsConserved(total, count);
    var raw := Raw(total, count, unit, count);
    forall i | 0 <= i < |raw| ensures Lots(unit, UnitsAt(total, count, i)) > 0.0 {
      HasUnit(total, count, i);
      UnitPositive(unit, UnitsAt(total, count, i));
    }
  }

  // A plan fails only on a division by zero. Otherwise it has at most maxSlices sizes, all positive, that
  // fall short of the parent by less than a unit; it is empty only without a whole unit or any slices.
  lemma PlanIsSound(config: Config, qty: real, price: Option<real>, step: Option<real>, floor: Option<real>)
    ensures var r, unit := PlanSizes(config, qty, price, step, floor), config.minSliceQty;
      && (r.Failure? <==> qty > 0.0 && (unit == 0.0 || (0.0 < unit <= qty && config.maxSlices == 0)))
      && (r.Success? ==>
            && |r.value| <= (if config.maxSlices < 0 then 0 else config.maxSlices)
            && (r.value != [] <==> 0.0 < unit <= qty && config.maxSlices > 0)
            && (forall i :: 0 <= i < |r.value| ==> r.value[i] > 0.0)
            && (r.value != [] ==> qty - unit < Sum(r.value) <= qty))
  {
    hide Raw, Lots, Sum, AlignAll, Reduced, UnitsAt, Clears;
    var unit := config.minSliceQty;
    if 0.0 < unit <= qty {
      var total := WholeUnits(qty, unit);
      UnitsFacts(qty, unit);
      OneMoreUnit(unit, total);
      CountFacts(config, total, qty, price, floor);
      var count := SliceCount(config, total, qty, price, floor);
      if count > 0 {
        RawFacts(total, count, unit);
        var raw := Raw(total, count, unit, count);
        if Realigns(raw, step) {
          AlignFacts(raw, step.value, qty);
        }
      }
    }
  }

  lemma CountFacts(config: Config, total: nat, qty: real, price: Option<real>, floor: Option<real>)
    requires total >= 1
    ensures var count := SliceCount(config, total, qty, price, floor);
      && count <= config.maxSlices
      && (count > 0 <==> config.maxSlices > 0)
      && (count == 0 <==> config.maxSlices == 0)
      && (count > 1 && Positive(floor) && Positive(price) ==> Clears(qty, count, price.value, floor.value))
  {
    hide Clears, Reduced;
    var wanted := if total < config.minSlices then config.minSlices else total;
    var count := if config.maxSlices < wanted then config.maxSlices else wanted;
    if Positive(floor) && Positive(price) {
      ReducedFacts(qty, count, price.value, floor.value);
    }
  }

  // There is a whole unit to plan and at least one slice allowed; such a plan is never empty.
  predicate Plans(config: Config, qty: real) {
    0.0 < config.minSliceQty <= qty && config.maxSlices > 0
  }

  // How many slices are planned: as many as counted, and no more than whole units.
  function PlannedCount(config: Config, qty: real, price: Option<real>, floor: Option<real>): (n: nat)
    requires Plans(config, qty)
    ensures n > 0
  {
    var total := WholeUnits(qty, config.minSliceQty);
    CountFacts(config, total, qty, price, floor);
    var count := SliceCount(config, total, qty, price, floor);
    if total < count then total else count
  }

  predicate Aligns(config: Config, qty: real, price: Option<real>, step: Option<real>, floor: Option<real>)
    requires Plans(config, qty)
  {
    Positive(step) && PlannedCount(config, qty, price, floor) > 1
  }

  // What a plan is made of: that many raw shares, aligned or not.
  lemma PlanShape(config: Config, qty: real, price: Option<real>, step: Option<real>, floor: Option<real>)
    returns (total: nat, count: nat)
    requires Plans(config, qty)
    ensures var unit, r := config.minSliceQty, PlanSizes(config, qty, price, step, floor);
      && total == WholeUnits(qty, unit) && count > 0
      && Lots(unit, total) <= qty < Lots(unit, total + 1)
      && count == SliceCount(config, total, qty, price, floor)
      && r == Success(Quantities(qty, unit, total, count, step))
      && PlannedCount(config, qty, price, floor) == (if total < count then total else count)
      && |r.value| == PlannedCount(config, qty, price, floor)
  {
    hide Raw, Lots, Sum, AlignAll, Reduced, UnitsAt, Clears;
    var unit := config.minSliceQty;
    total := WholeUnits(qty, unit);
    UnitsFacts(qty, unit);
    CountFacts(config, total, qty, price, floor);
    count := SliceCount(config, total, qty, price, floor);
    RawFacts(total, count, unit);
  }

  lemma PlanSucceeds(config: Config, qty: real, price: Option<real>, step: Option<real>, floor: Option<real>)
    requires Plans(config, qty)
    ensures var r := PlanSizes(config, qty, price, step, floor);
      r.Success? && |r.value| == PlannedCount(config, qty, price, floor)
  {
    hide PlanSizes, PlannedCount, Quantities, SliceCount, WholeUnits, Lots;
    var total, count := PlanShape(config, qty, price, step, floor);
  }

  function PlannedSizes(config: Config, qty: real, price: Option<real>, step: Option<real>, floor: Option<real>)
    : (sizes: seq<real>)
    requires Plans(config, qty)
    ensures PlanSizes(config, qty, price, step, floor) == Success(sizes)
    ensures |sizes| == PlannedCount(config, qty, price, floor)
  {
    PlanSucceeds(config, qty, price, step, floor);
    PlanSizes(config, qty, price, step, floor).value
  }

  // The sizes add up to the parent exactly when they are aligned or the parent is in whole units.
  lemma SumsExactlyIff(config: Config, qty: real, price: Option<real>, step: Option<real>, floor: Option<real>)
    requires Plans(config, qty)
    ensures var sizes, unit := PlannedSizes(config, qty, price, step, floor), config.minSliceQty;
      Sum(sizes) == qty <==> Aligns(config, qty, price, step, floor) || qty == Lots(unit, WholeUnits(qty, unit))
  {
    hide Raw, Lots, Sum, AlignAll, PlanSizes, PlannedSizes, UnitsAt, SliceCount, WholeUnits, PlannedCount;
    var total, count := PlanShape(config, qty, price, step, floor);
    RawFacts(total, count, config.minSliceQty);
    var raw := Raw(total, count, config.minSliceQty, count);
    if Realigns(raw, step) {
      AlignFacts(raw, step.value, qty);
    }
  }

  // ---------------------------------------------------------------- spread and the notional floor

  // No two sizes differ by more than one unit.
  predicate EvenlySpread(sizes: seq<real>, unit: real) {
    forall i, j :: 0 <= i < |sizes| && 0 <= j < |sizes| ==> sizes[i] <= sizes[j] + unit
  }

  // Each size and so much more clears the notional floor.
  predicate NearlyClear(sizes: seq<real>, slack: real, price: real, floor: real) {
    forall i :: 0 <= i < |sizes| ==> ClearsWith(sizes[i], slack, price, floor)
  }

  predicate AllClear(sizes: seq<real>, price: real, floor: real) {
    forall i :: 0 <= i < |sizes| ==> sizes[i] * price >= floor
  }

  lemma RawSpread(total: nat, count: nat, unit: real)
    requires total > 0 && count > 0 && unit > 0.0
    ensures EvenlySpread(Raw(total, count, unit, count), unit)
  {
    hide UnitsAt, Raw, Lots;
    RawFacts(total, count, unit);
    UnitsConserved(total, count);
    var raw := Raw(total, count, unit, count);
    forall i, j | 0 <= i < |raw| && 0 <= j < |raw| ensures raw[i] <= raw[j] + unit {
      OneMoreUnit(unit, UnitsAt(total, count, j));
      LotsMono(unit, UnitsAt(total, count, i), UnitsAt(total, count, j) + 1);
    }
  }

  // Without alignment the sizes are evenly spread.
  lemma PlanSpread(config: Config, qty: real, price: Option<real>, step: Option<real>, floor: Option<real>)
    requires Plans(config, qty) && !Aligns(config, qty, price, step, floor)
    ensures EvenlySpread(PlannedSizes(config, qty, price, step, floor), config.minSliceQty)
  {
    hide Raw, Lots, Sum, AlignAll, PlanSizes, PlannedSizes, UnitsAt, SliceCount, WholeUnits, EvenlySpread, PlannedCount;
    var total, count := PlanShape(config, qty, price, step, floor);
    RawFacts(total, count, config.minSliceQty);
    RawSpread(total, count, config.minSliceQty);
  }

  // Aligned, all but the last size are whole steps or dust.
  lemma PlanOnStep(config: Config, qty: real, price: Option<real>, step: Option<real>, floor: Option<real>)
    requires Plans(config, qty) && Aligns(config, qty, price, step, floor)
    ensures var sizes := PlannedSizes(config, qty, price, step, floor);
      forall i :: 0 <= i < |sizes| - 1 ==> OnStep(sizes[i], step.value)
  {
    hide Raw, Lots, Sum, AlignAll, PlanSizes, PlannedSizes, UnitsAt, SliceCount, WholeUnits, OnStep, Aligned, PlannedCount;
    var total, count := PlanShape(config, qty, price, step, floor);
    RawFacts(total, count, config.minSliceQty);
    AlignFacts(Raw(total, count, config.minSliceQty, count), step.value, qty);
  }

  // With a floor, a price and more than one slice, every size is less than one unit short of the floor, and
  // when aligned less than a unit and a step.
  lemma PlanNearlyClears(config: Config, qty: real, price: Option<real>, step: Option<real>, floor: Option<real>)
    requires Plans(config, qty) && PlannedCount(config, qty, price, floor) > 1
    requires Positive(price) && Positive(floor)
    ensures var sizes, unit := PlannedSizes(config, qty, price, step, floor), config.minSliceQty;
      NearlyClear(sizes, if Positive(step) then unit + step.value else unit, price.value, floor.value)
  {
    hide Raw, Lots, Sum, AlignAll, PlanSizes, PlannedSizes, UnitsAt, SliceCount, WholeUnits, Clears, ClearsWith, Aligned, OnStep,
      PlannedCount;
    var total, count := PlanShape(config, qty, price, step, floor);
    var unit, sizes := config.minSliceQty, PlannedSizes(config, qty, price, step, floor);
    CountFacts(config, total, qty, price, floor);
    RawFacts(total, count, unit);
    var raw := Raw(total, count, unit, count);
    var slack := if Positive(step) then unit + step.value else unit;
    if Positive(step) {
      AlignFacts(raw, step.value, qty);
    }
    forall i | 0 <= i < |sizes| ensures ClearsWith(sizes[i], slack, price.value, floor.value) {
      SlicesNearlyClear(qty, unit, total, count, price.value, floor.value, i);
      MoreSlack(raw[i], sizes[i], unit, slack, price.value, floor.value);
    }
  }

  lemma MoreSlack(p: real, q: real, unit: real, slack: real, price: real, floor: real)
    requires ClearsWith(p, unit, price, floor) && p + unit <= q + slack && price > 0.0
    ensures ClearsWith(q, slack, price, floor)
  {
    MulMono(p + unit, q + slack, price);
  }

  // Unaligned, every size clears a floor exactly when the rounded-down even share does.
  lemma UnalignedClearsIff(config: Config, qty: real, price: Option<real>, step: Option<real>, floor: Option<real>,
                           p: real, f: real)
    requires Plans(config, qty) && !Aligns(config, qty, price, step, floor) && p > 0.0
    ensures var unit, n := config.minSliceQty, PlannedCount(config, qty, price, floor);
      AllClear(PlannedSizes(config, qty, price, step, floor), p, f) <==> Lots(unit, WholeUnits(qty, unit) / n) * p >= f
  {
    hide Raw, Lots, Sum, AlignAll, PlanSizes, PlannedSizes, UnitsAt, SliceCount, WholeUnits, PlannedCount;
    var total, count := PlanShape(config, qty, price, step, floor);
    var unit, sizes := config.minSliceQty, PlannedSizes(config, qty, price, step, floor);
    RawFacts(total, count, unit);
    LastShare(total, count);
    var n := |sizes| - 1;
    forall i | 0 <= i <= n ensures sizes[n] * p <= sizes[i] * p {
      SharesDescend(total, count, i, n);
      LotsMono(unit, UnitsAt(total, count, n), UnitsAt(total, count, i));
      MulMono(sizes[n], sizes[i], p);
    }
  }

  // Before aligning: r of the n shares have one unit more than the others.
  function AlignedShare(unit: real, total: nat, n: nat, step: real, i: nat): real
    requires n > 0 && step > 0.0
  {
    Aligned(Lots(unit, if i < total % n then total / n + 1 else total / n), step)
  }

  // What r slices of a and then slices of b leave of qty for the last of n.
  function Left(qty: real, a: real, b: real, r: nat, n: nat): real
    requires r < n
  {
    qty - a * r as real - b * (n - 1 - r) as real
  }

  // What alignment leaves for the last of n slices.
  function LastAligned(qty: real, unit: real, total: nat, n: nat, step: real): real
    requires n > 0 && step > 0.0
  {
    Left(qty, Aligned(Lots(unit, total / n + 1), step), Aligned(Lots(unit, total / n), step), total % n, n)
  }

  // A run of r values a and then values b.
  lemma {:induction false} SumOfTwoLevels(s: seq<real>, r: nat, a: real, b: real)
    requires r <= |s| && forall i :: 0 <= i < |s| ==> s[i] == if i < r then a else b
    ensures Sum(s) == a * r as real + b * (|s| - r) as real
  {
    if s != [] {
      var n := |s| - 1;
      if r == |s| {
        SumOfTwoLevels(s[..n], n, a, b);
        OneMoreTimes(a, n);
      } else {
        SumOfTwoLevels(s[..n], r, a, b);
        OneMoreTimes(b, n - r);
      }
    }
  }

  // Aligning r shares of one size and then shares of another.
  lemma AlignTwoLevels(raw: seq<real>, r: nat, a: real, b: real, step: real, qty: real)
    requires |raw| > 1 && r < |raw| && step > 0.0
    requires forall i :: 0 <= i < |raw| ==> raw[i] == if i < r then a else b
    ensures var n, sizes := |raw|, AlignAll(raw, step, qty);
      && |sizes| == n
      && (forall i :: 0 <= i < n - 1 ==> sizes[i] == if i < r then Aligned(a, step) else Aligned(b, step))
      && sizes[n - 1] == Left(qty, Aligned(a, step), Aligned(b, step), r, n)
  {
    hide Sum, Aligned;
    var n := |raw|;
    var front := AlignFront(raw[..n - 1], step);
    AlignLast(raw, step, qty);
    forall i | 0 <= i < n - 1 ensures front[i] == if i < r then Aligned(a, step) else Aligned(b, step) {
      assert raw[..n - 1][i] == raw[i];
    }
    SumOfTwoLevels(front, r, Aligned(a, step), Aligned(b, step));
  }

  // The raw shares are such a run.
  lemma RawTwoLevels(total: nat, count: nat, unit: real, n: nat, i: nat)
    requires 0 < total && 0 < count && unit > 0.0 && n == (if total < count then total else count) && i < n
    ensures |Raw(total, count, unit, count)| == n
    ensures Raw(total, count, unit, count)[i]
         == if i < total % n then Lots(unit, total / n + 1) else Lots(unit, total / n)
  {
    hide Raw, Lots, Sum;
    RawFacts(total, count, unit);
    SameShare(total, count, i);
  }

  lemma AlignedRaw(total: nat, count: nat, unit: real, n: nat, step: real, qty: real)
    requires 0 < total && 0 < count && unit > 0.0 && step > 0.0
    requires n == (if total < count then total else count) > 1
    ensures var raw := Raw(total, count, unit, count);
      && |raw| == n
      && (forall i :: 0 <= i < n - 1 ==> AlignAll(raw, step, qty)[i] == AlignedShare(unit, total, n, step, i))
      && AlignAll(raw, step, qty)[n - 1] == LastAligned(qty, unit, total, n, step)
  {
    hide Raw, Lots, Sum, Aligned, AlignAll, Left;
    var raw := Raw(total, count, unit, count);
    RawTwoLevels(total, count, unit, n, 0);
    forall i | 0 <= i < n
      ensures raw[i] == if i < total % n then Lots(unit, total / n + 1) else Lots(unit, total / n)
    {
      RawTwoLevels(total, count, unit, n, i);
    }
    AlignTwoLevels(raw, total % n, Lots(unit, total / n + 1), Lots(unit, total / n), step, qty);
  }

  // The aligned sizes in closed form.
  lemma AlignedSizes(config: Config, qty: real, price: Option<real>, step: Option<real>, floor: Option<real>)
    requires Plans(config, qty) && Aligns(config, qty, price, step, floor)
    ensures var sizes, unit := PlannedSizes(config, qty, price, step, floor), config.minSliceQty;
      var total, n := WholeUnits(qty, unit), PlannedCount(config, qty, price, floor);
      && n <= total
      && (forall i :: 0 <= i < n - 1 ==> sizes[i] == AlignedShare(unit, total, n, step.value, i))
      && sizes[n - 1] == LastAligned(qty, unit, total, n, step.value)
  {
    hide Raw, Lots, Sum, PlanSizes, PlannedSizes, SliceCount, WholeUnits, PlannedCount, Aligned, AlignAll,
      AlignedShare, LastAligned;
    var total, count := PlanShape(config, qty, price, step, floor);
    AlignedRaw(total, count, config.minSliceQty, PlannedCount(config, qty, price, floor), step.value, qty);
  }

  // Aligned, every size clears a floor exactly when two amounts do that are known before planning: the
  // aligned share of the last slice but one, and what the aligned shares leave of the parent.
  lemma AlignedClearsIff(config: Config, qty: real, price: Option<real>, step: Option<real>, floor: Option<real>,
                         p: real, f: real)
    requires Plans(config, qty) && Aligns(config, qty, price, step, floor) && p > 0.0
    ensures var unit, n := config.minSliceQty, PlannedCount(config, qty, price, floor);
      var total := WholeUnits(qty, unit);
      AllClear(PlannedSizes(config, qty, price, step, floor), p, f) <==>
        && AlignedShare(unit, total, n, step.value, n - 2) * p >= f
        && LastAligned(qty, unit, total, n, step.value) * p >= f
  {
    hide Lots, PlanSizes, PlannedSizes, WholeUnits, PlannedCount, Aligned, LastAligned;
    AlignedSizes(config, qty, price, step, floor);
    var unit, sizes := config.minSliceQty, PlannedSizes(config, qty, price, step, floor);
    var total, n := WholeUnits(qty, unit), PlannedCount(config, qty, price, floor);
    forall i | 0 <= i < n - 1 ensures sizes[n - 2] * p <= sizes[i] * p {
      AlignedSharesDescend(unit, total, n, step.value, i);
      MulMono(sizes[n - 2], sizes[i], p);
    }
  }

  lemma AlignedSharesDescend(unit: real, total: nat, n: nat, step: real, i: nat)
    requires unit > 0.0 && step > 0.0 && 1 < n <= total && i < n - 1
    ensures AlignedShare(unit, total, n, step, n - 2) <= AlignedShare(unit, total, n, step, i)
  {
    hide Lots, Aligned;
    if n - 2 >= total % n > i {
      LotsMono(unit, total / n, total / n + 1);
      LargeQuotient(total, n);
      UnitPositive(unit, total / n);
      AlignedMono(Lots(unit, total / n), Lots(unit, total / n + 1), step);
    }
  }

  // Empty shares do not change the others.
  lemma SameShare(total: nat, count: nat, i: nat)
    requires total > 0 && count > 0 && i < (if total < count then total else count)
    ensures UnitsAt(total, count, i) == UnitsAt(total, if total < count then total else count, i)
  {
    if total < count {
      SmallQuotient(total, count);
    }
  }

  // ---------------------------------------------------------------- the plan from its inputs

  // The whole units that fit a quantity.
  predicate Fit(qty: real, unit: real, total: nat) {
    total as real * unit <= qty < (total + 1) as real * unit
  }

  lemma FitIsWhole(qty: real, unit: real, total: nat)
    requires 0.0 < unit <= qty && Fit(qty, unit, total)
    ensures WholeUnits(qty, unit) == total
  {
    DivMul(qty, unit);
    MulCancel(total as real, qty / unit, unit);
    MulCancelStrict(qty / unit, (total + 1) as real, unit);
  }

  // Without a floor or a price there are as many children as whole units, up to the most allowed.
  lemma PlanCount(config: Config, parent: Parent, step: Option<real>, floor: Option<real>, total: nat)
    requires Plans(config, parent.quantity) && Fit(parent.quantity, config.minSliceQty, total)
    requires !Positive(parent.price) || !Positive(floor)
    ensures var r := PlanOf(config, parent, step, floor);
      r.Success? && |r.value| == if total < config.maxSlices then total else config.maxSlices
  {
    hide Fit, WholeUnits, PlanSizes, PlannedSizes;
    FitIsWhole(parent.quantity, config.minSliceQty, total);
    var sizes := PlannedSizes(config, parent.quantity, parent.price, step, floor);
  }

  function EvenShare(qty: real, count: int): real
    requires count > 0
  {
    qty / count as real
  }

  // The greatest count up to `most` whose even share clears the floor, or one if there is none.
  ghost predicate GreatestClearing(qty: real, most: int, price: real, floor: real, c: int) {
    && 1 <= c <= most
    && (c > 1 ==> qty / c as real * price >= floor)
    && forall d: int :: c < d <= most ==> EvenShare(qty, d) * price < floor
  }

  lemma {:induction false} ReducedIsGreatest(qty: real, count: int, price: real, floor: real)
    requires count >= 1
    ensures GreatestClearing(qty, count, price, floor, Reduced(qty, count, price, floor))
    decreases count
  {
    if count > 1 && !Clears(qty, count, price, floor) {
      ReducedIsGreatest(qty, count - 1, price, floor);
    }
  }

  // With a floor and a price there are that many children instead, counted down from the whole units or the
  // fewest wanted, but never more than whole units.
  lemma PlanCountFloored(config: Config, parent: Parent, step: Option<real>, floor: Option<real>, total: nat, c: int)
    requires Plans(config, parent.quantity) && Fit(parent.quantity, config.minSliceQty, total)
    requires Positive(parent.price) && Positive(floor)
    requires var wanted := if total < config.minSlices then config.minSlices else total;
      var most := if wanted < config.maxSlices then wanted else config.maxSlices;
      GreatestClearing(parent.quantity, most, parent.price.value, floor.value, c)
    ensures var r := PlanOf(config, parent, step, floor);
      r.Success? && |r.value| == if total < c then total else c
  {
    hide Fit, WholeUnits, PlanSizes, PlannedSizes, Reduced, GreatestClearing;
    var qty := parent.quantity;
    FitIsWhole(qty, config.minSliceQty, total);
    var sizes := PlannedSizes(config, qty, parent.price, step, floor);
    var wanted := if total < config.minSlices then config.minSlices else total;
    var most := if wanted < config.maxSlices then wanted else config.maxSlices;
    ReducedIsGreatest(qty, most, parent.price.value, floor.value);
    OneGreatest(qty, most, parent.price.value, floor.value, c, Reduced(qty, most, parent.price.value, floor.value));
  }

  lemma OneGreatest(qty: real, most: int, price: real, floor: real, c: int, d: int)
    requires GreatestClearing(qty, most, price, floor, c) && GreatestClearing(qty, most, price, floor, d)
    ensures c == d
  {
    assert EvenShare(qty, c) == qty / c as real && EvenShare(qty, d) == qty / d as real;
  }

  // Share i of n in whole units.
  function UnitShare(unit: real, total: nat, n: nat, i: nat): real
    requires n > 0
  {
    (if i < total % n then total / n + 1 else total / n) as real * unit
  }

  lemma ShareInUnits(total: nat, count: nat, unit: real, n: nat, i: nat)
    requires 0 < total && 0 < count && unit > 0.0 && n == (if total < count then total else count) && i < n
    ensures Lots(unit, UnitsAt(total, count, i)) == UnitShare(unit, total, n, i)
  {
    hide Lots;
    SameShare(total, count, i);
    LotsProduct(unit, UnitsAt(total, count, i));
  }

  lemma UnalignedSizes(config: Config, qty: real, price: Option<real>, step: Option<real>, floor: Option<real>)
    requires Plans(config, qty) && !Aligns(config, qty, price, step, floor)
    ensures var sizes, unit := PlannedSizes(config, qty, price, step, floor), config.minSliceQty;
      && |sizes| <= WholeUnits(qty, unit)
      && forall i :: 0 <= i < |sizes| ==> sizes[i] == UnitShare(unit, WholeUnits(qty, unit), |sizes|, i)
  {
    hide Raw, Lots, Sum, PlanSizes, PlannedSizes, SliceCount, WholeUnits, PlannedCount, AlignAll, UnitShare, UnitsAt;
    var total, count := PlanShape(config, qty, price, step, floor);
    RawFacts(total, count, config.minSliceQty);
    var sizes := PlannedSizes(config, qty, price, step, floor);
    forall i | 0 <= i < |sizes| ensures sizes[i] == UnitShare(config.minSliceQty, total, |sizes|, i) {
      ShareInUnits(total, count, config.minSliceQty, |sizes|, i);
    }
  }

  // Each child has its place and its even share of the units, the first ones one more; with a step these are
  // aligned, and the last takes what is left. Only the last carries the triggers.
  lemma PlanInFull(config: Config, parent: Parent, step: Option<real>, floor: Option<real>, total: nat)
    requires Plans(config, parent.quantity) && Fit(parent.quantity, config.minSliceQty, total)
    ensures var r, unit := PlanOf(config, parent, step, floor), config.minSliceQty;
      && r.Success? && 0 < |r.value| <= total
      && var n := |r.value|;
      && (forall i :: 0 <= i < n ==> r.value[i].index == i)
      && (forall i :: 0 <= i < n - 1 ==> r.value[i].takeProfit == None && r.value[i].stopLoss == None)
      && r.value[n - 1].takeProfit == parent.takeProfit && r.value[n - 1].stopLoss == parent.stopLoss
      && (!Positive(step) || n == 1 ==> forall i :: 0 <= i < n ==>
            r.value[i].quantity == UnitShare(unit, total, n, i))
      && (Positive(step) && n > 1 ==>
            && (forall i :: 0 <= i < n - 1 ==> r.value[i].quantity == AlignedShare(unit, total, n, step.value, i))
            && r.value[n - 1].quantity == LastAligned(parent.quantity, unit, total, n, step.value))
  {
    hide Fit, WholeUnits, PlanSizes, PlannedSizes, AlignedShare, UnitShare, LastAligned, PlannedCount;
    var qty := parent.quantity;
    FitIsWhole(qty, config.minSliceQty, total);
    var sizes := PlannedSizes(config, qty, parent.price, step, floor);
    if Aligns(config, qty, parent.price, step, floor) {
      AlignedSizes(config, qty, parent.price, step, floor);
    } else {
      UnalignedSizes(config, qty, parent.price, step, floor);
    }
  }

  // 3 units in two slices clear a floor of 1.5 on average but leave a slice of 1. And 3.8 in two slices
  // of 1.9 clears a floor of 1.9 until a step of 1 cuts the first slice to 1.
  lemma SliceBelowFloor()
    ensures Clears(3.0, 2, 1.0, 1.5) && Lots(1.0, UnitsAt(3, 2, 1)) * 1.0 < 1.5
    ensures Clears(3.8, 2, 1.0, 1.9) && AlignAll([1.9, 1.9], 1.0, 3.8)[0] * 1.0 < 1.9
  {
    assert AlignFront([1.9], 1.0)[0] == Aligned(1.9, 1.0);
    assert (1.9 / 1.0).Floor == 1;
    assert [1.9, 1.9][..1] == [1.9];
  }
}
