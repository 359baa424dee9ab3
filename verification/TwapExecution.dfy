/** Executing a plan slice by slice, with one urgent order when the fills lag behind the time. */
module TwapExecution {
  import opened Reals
  import opened Twap
  import opened Wrappers

  // A submission is recorded with its fill, rejected, or times out (which aborts the execution).
  datatype Reply = Recorded(filled: real) | Rejected | TimedOut

  // The reply to the n-th submission, given its size.
  type Venue = (nat, real) -> Reply

  // No order fills beyond its size.
  ghost predicate Honest(venue: Venue) {
    forall n: nat, size: real :: size > 0.0 && venue(n, size).Recorded? ==> 0.0 <= venue(n, size).filled <= size
  }

  // What the recorded replies to the submissions filled, in order.
  function FillsOf(venue: Venue, submitted: seq<real>): seq<real> {
    if submitted == [] then []
    else
      var n := |submitted| - 1;
      var front := FillsOf(venue, submitted[..n]);
      var reply := venue(n, submitted[n]);
      if reply.Recorded? then front + [reply.filled] else front
  }

  function Filled(venue: Venue, submitted: seq<real>): real {
    Sum(FillsOf(venue, submitted))
  }

  lemma FillsSnoc(venue: Venue, submitted: seq<real>, size: real)
    ensures var front, reply := FillsOf(venue, submitted), venue(|submitted|, size);
      FillsOf(venue, submitted + [size]) == (if reply.Recorded? then front + [reply.filled] else front)
    ensures Filled(venue, submitted + [size]) == Filled(venue, submitted) +
      (if venue(|submitted|, size).Recorded? then venue(|submitted|, size).filled else 0.0)
  {
    hide Sum;
    assert (submitted + [size])[..|submitted|] == submitted;
    var reply := venue(|submitted|, size);
    if reply.Recorded? {
      SumSnoc(FillsOf(venue, submitted), reply.filled);
    }
  }

  // ---------------------------------------------------------------- where an execution ends

  predicate TimesOut(venue: Venue, sizes: seq<real>, i: nat)
    requires i < |sizes|
  {
    venue(i, sizes[i]).TimedOut?
  }

  function FillShare(qty: real, filled: real): real {
    if qty > 0.0 then filled / qty else 1.0
  }

  // After a recorded slice, before the last, that comes late with less than half of the parent filled.
  predicate TurnsUrgent(qty: real, venue: Venue, late: nat -> bool, sizes: seq<real>, i: nat)
    requires i < |sizes|
  {
    && venue(i, sizes[i]).Recorded? && i < |sizes| - 1 && late(i)
    && FillShare(qty, Filled(venue, sizes[..i + 1])) < 0.5
  }

  predicate EndsAt(qty: real, venue: Venue, late: nat -> bool, sizes: seq<real>, i: nat)
    requires i < |sizes|
  {
    TimesOut(venue, sizes, i) || TurnsUrgent(qty, venue, late, sizes, i)
  }

  // The first slice from i on that ends the execution; the number of slices if none does.
  function FirstEnd(qty: real, venue: Venue, late: nat -> bool, sizes: seq<real>, i: nat): (e: nat)
    requires i <= |sizes|
    ensures i <= e <= |sizes|
    ensures forall j :: i <= j < e ==> !EndsAt(qty, venue, late, sizes, j)
    ensures e < |sizes| ==> EndsAt(qty, venue, late, sizes, e)
    decreases |sizes| - i
  {
    if i == |sizes| || EndsAt(qty, venue, late, sizes, i) then i else FirstEnd(qty, venue, late, sizes, i + 1)
  }

  datatype Execution = Execution(submitted: seq<real>, failed: bool)

  // All slices; or those up to a timeout; or those up to a late one and an order for all that is unfilled.
  function Executed(qty: real, venue: Venue, late: nat -> bool, sizes: seq<real>): Execution {
    var e := FirstEnd(qty, venue, late, sizes, 0);
    if e == |sizes| then Execution(sizes, false)
    else if TimesOut(venue, sizes, e) then Execution(sizes[..e + 1], true)
    else
      var rest := qty - Filled(venue, sizes[..e + 1]);
      Execution(sizes[..e + 1] + [rest], venue(e + 1, rest).TimedOut?)
  }

  // Runs the plan: `late(i)` says whether the time share used after slice i exceeds the urgency threshold.
  method Execute(config: Config, parent: Parent, step: Option<real>, floor: Option<real>,
                 venue: Venue, late: nat -> bool)
    returns (fills: seq<real>, submitted: seq<real>, slices: seq<Child>, failed: bool)
    ensures var plan := PlanOf(config, parent, step, floor);
      && slices == (if plan.Success? then plan.value else [])
      && Execution(submitted, failed) ==
         if plan.Failure? then Execution([], true)
         else Executed(parent.quantity, venue, late, PlanSizes(config, parent.quantity, parent.price, step, floor).value)
    ensures fills == FillsOf(venue, submitted)
  {
    hide Sum, FillsOf, Filled, PlanSizes, PlanOf, FirstEnd, Executed;
    NothingFilled(venue);
    fills, submitted, slices, failed := [], [], [], false;
    var plan := Plan(config, parent, step, floor);
    PlanQuantities(config, parent, step, floor);
    if plan.Failure? {
      failed := true;
      return;
    }
    slices := plan.value;
    var qty, totalFilled := parent.quantity, 0.0;
    ghost var sizes := PlanSizes(config, qty, parent.price, step, floor).value;
    for i := 0 to |slices|
      invariant submitted == sizes[..i] && fills == FillsOf(venue, submitted)
      invariant totalFilled == Filled(venue, submitted)
      invariant FirstEnd(qty, venue, late, sizes, 0) == FirstEnd(qty, venue, late, sizes, i)
    {
      var size := slices[i].quantity;
      FillsSnoc(venue, submitted, size);
      submitted := submitted + [size];
      assert submitted == sizes[..i + 1];
      EndsHere(qty, venue, late, sizes, i);
      var reply := venue(i, size);
      if reply.TimedOut? {
        failed := true;
        return;
      }
      if reply.Recorded? {
        fills := fills + [reply.filled];
        totalFilled := totalFilled + reply.filled;
        if i < |slices| - 1 && late(i) && FillShare(qty, totalFilled) < 0.5 {
          var remaining := qty - totalFilled;
          UnderHalf(qty, totalFilled);
          if remaining > 0.0 {
            FillsSnoc(venue, submitted, remaining);
            submitted := submitted + [remaining];
            var urgent := venue(i + 1, remaining);
            if urgent.TimedOut? {
              failed := true;
            } else if urgent.Recorded? {
              fills := fills + [urgent.filled];
            }
          }
          return;
        }
      }
    }
    EndsNowhere(qty, venue, late, sizes);
  }

  lemma NothingFilled(venue: Venue)
    ensures FillsOf(venue, []) == [] && Filled(venue, []) == 0.0
  {
  }

  lemma PlanQuantities(config: Config, parent: Parent, step: Option<real>, floor: Option<real>)
    ensures var plan := PlanOf(config, parent, step, floor);
      var r := PlanSizes(config, parent.quantity, parent.price, step, floor);
      && (plan.Success? <==> r.Success?)
      && (plan.Success? ==> |plan.value| == |r.value|)
      && (plan.Success? ==> forall i :: 0 <= i < |r.value| ==> plan.value[i].quantity == r.value[i])
  {
    hide PlanSizes;
  }

  lemma EndsHere(qty: real, venue: Venue, late: nat -> bool, sizes: seq<real>, i: nat)
    requires i < |sizes|
    requires FirstEnd(qty, venue, late, sizes, 0) == FirstEnd(qty, venue, late, sizes, i)
    ensures TimesOut(venue, sizes, i) ==> Executed(qty, venue, late, sizes) == Execution(sizes[..i + 1], true)
    ensures TurnsUrgent(qty, venue, late, sizes, i) ==>
      var rest := qty - Filled(venue, sizes[..i + 1]);
      Executed(qty, venue, late, sizes) == Execution(sizes[..i + 1] + [rest], venue(i + 1, rest).TimedOut?)
    ensures !EndsAt(qty, venue, late, sizes, i) ==>
      FirstEnd(qty, venue, late, sizes, 0) == FirstEnd(qty, venue, late, sizes, i + 1)
  {
    hide Filled;
  }

  lemma EndsNowhere(qty: real, venue: Venue, late: nat -> bool, sizes: seq<real>)
    requires FirstEnd(qty, venue, late, sizes, 0) == FirstEnd(qty, venue, late, sizes, |sizes|)
    ensures Executed(qty, venue, late, sizes) == Execution(sizes, false)
  {
  }

  lemma UnderHalf(qty: real, filled: real)
    requires FillShare(qty, filled) < 0.5
    ensures 0.0 < qty && filled < qty
  {
    DivMul(filled, qty);
    MulStrict(filled / qty, 0.5, qty);
  }

  // ---------------------------------------------------------------- what an execution guarantees

  // The reply to every submission fills it completely.
  predicate FilledInFull(venue: Venue, submitted: seq<real>) {
    forall i :: 0 <= i < |submitted| ==> venue(i, submitted[i]) == Recorded(submitted[i])
  }

  // Fills never exceed what was submitted, and equal it exactly when every submission filled in full.
  lemma {:induction false} FilledWithin(venue: Venue, submitted: seq<real>)
    requires Honest(venue) && forall i :: 0 <= i < |submitted| ==> submitted[i] > 0.0
    ensures 0.0 <= Filled(venue, submitted) <= Sum(submitted)
    ensures |FillsOf(venue, submitted)| <= |submitted|
    ensures Filled(venue, submitted) == Sum(submitted) <==> FilledInFull(venue, submitted)
  {
    hide Sum, FillsOf, Filled, Honest;
    if submitted == [] {
      NothingFilled(venue);
      SumNothing();
    } else {
      var n := |submitted| - 1;
      FilledWithin(venue, submitted[..n]);
      assert submitted == submitted[..n] + [submitted[n]];
      FillsSnoc(venue, submitted[..n], submitted[n]);
      SumSnoc(submitted[..n], submitted[n]);
      FillFits(venue, n, submitted[n]);
      assert FilledInFull(venue, submitted) <==>
        FilledInFull(venue, submitted[..n]) && venue(n, submitted[n]) == Recorded(submitted[n]);
    }
  }

  lemma FillFits(venue: Venue, n: nat, size: real)
    requires Honest(venue) && size > 0.0
    ensures venue(n, size).Recorded? ==> 0.0 <= venue(n, size).filled <= size
  {
  }

  lemma {:induction false} SumPrefix(sizes: seq<real>, k: nat)
    requires k <= |sizes| && forall i :: 0 <= i < |sizes| ==> sizes[i] > 0.0
    ensures Sum(sizes[..k]) <= Sum(sizes) && (k < |sizes| ==> Sum(sizes[..k]) < Sum(sizes))
  {
    if k == |sizes| {
      assert sizes[..k] == sizes;
    } else {
      var n := |sizes| - 1;
      SumPrefix(sizes[..n], k);
      assert sizes[..n][..k] == sizes[..k];
    }
  }

  // A late slice with an urgent order after it.
  predicate SendsUrgent(qty: real, venue: Venue, late: nat -> bool, sizes: seq<real>) {
    var e := FirstEnd(qty, venue, late, sizes, 0);
    e < |sizes| && TurnsUrgent(qty, venue, late, sizes, e)
  }

  // The shape of an execution: a prefix of the sizes, and after a late slice that is not the last, the rest.
  lemma ExecutedShape(qty: real, venue: Venue, late: nat -> bool, sizes: seq<real>) returns (k: nat)
    ensures k <= |sizes|
    ensures var submitted := Executed(qty, venue, late, sizes).submitted;
      if SendsUrgent(qty, venue, late, sizes) then
        && 0 < k < |sizes| && Filled(venue, sizes[..k]) < qty
        && submitted == sizes[..k] + [qty - Filled(venue, sizes[..k])]
      else submitted == sizes[..k]
    ensures !SendsUrgent(qty, venue, late, sizes) && !Executed(qty, venue, late, sizes).failed ==> k == |sizes|
  {
    hide Filled;
    var e := FirstEnd(qty, venue, late, sizes, 0);
    if e == |sizes| {
      k := e;
      assert sizes[..k] == sizes;
    } else {
      k := e + 1;
      if TurnsUrgent(qty, venue, late, sizes, e) {
        UnderHalf(qty, Filled(venue, sizes[..k]));
      }
    }
  }

  ghost predicate Sliced(qty: real, sizes: seq<real>) {
    Sum(sizes) <= qty && forall i :: 0 <= i < |sizes| ==> sizes[i] > 0.0
  }

  // On every interleaving of rejections, timeouts and lateness: no more submissions than sizes, all
  // positive, never more filled than the parent, and less than twice the parent asked for in all. Without
  // a timeout or an urgent order the whole plan is submitted.
  lemma ExecutionIsBounded(qty: real, venue: Venue, late: nat -> bool, sizes: seq<real>)
    requires Honest(venue) && Sliced(qty, sizes)
    ensures var x := Executed(qty, venue, late, sizes);
      && |x.submitted| <= |sizes|
      && (forall i :: 0 <= i < |x.submitted| ==> x.submitted[i] > 0.0)
      && 0.0 <= Filled(venue, x.submitted) <= (if sizes == [] then 0.0 else qty)
      && |FillsOf(venue, x.submitted)| <= |x.submitted|
      && (sizes != [] ==> Sum(x.submitted) < 2.0 * qty)
      && (!x.failed && !SendsUrgent(qty, venue, late, sizes) ==> x.submitted == sizes)
  {
    hide Sum, Filled, FillsOf, Executed, Honest, SendsUrgent;
    var k := ExecutedShape(qty, venue, late, sizes);
    SumNothing();
    NothingFilled(venue);
    var x, done := Executed(qty, venue, late, sizes), sizes[..k];
    assert sizes[..|sizes|] == sizes && sizes[..0] == [];
    SumPrefix(sizes, 0);
    SumPrefix(sizes, k);
    FilledWithin(venue, done);
    FilledWithin(venue, x.submitted);
    if SendsUrgent(qty, venue, late, sizes) {
      var rest := qty - Filled(venue, done);
      SumSnoc(done, rest);
      FillsSnoc(venue, done, rest);
      FillFits(venue, k, rest);
    }
  }

  // More than the parent is asked for exactly when an urgent order follows slices that did not all fill.
  lemma OverRequestsIff(qty: real, venue: Venue, late: nat -> bool, sizes: seq<real>)
    requires Honest(venue) && Sliced(qty, sizes)
    ensures var submitted := Executed(qty, venue, late, sizes).submitted;
      submitted != [] ==> (Sum(submitted) > qty <==>
        SendsUrgent(qty, venue, late, sizes) && !FilledInFull(venue, submitted[..|submitted| - 1]))
  {
    hide Sum, Filled, FillsOf, Executed, Honest, SendsUrgent, FilledInFull;
    var k := ExecutedShape(qty, venue, late, sizes);
    var submitted, done := Executed(qty, venue, late, sizes).submitted, sizes[..k];
    SumPrefix(sizes, k);
    FilledWithin(venue, done);
    if SendsUrgent(qty, venue, late, sizes) {
      SumSnoc(done, qty - Filled(venue, done));
      assert submitted[..|submitted| - 1] == done;
    }
  }

  // After slice i the execution just goes on: no timeout, and no recorded slice but the last that comes late
  // with less than half of the parent filled.
  predicate GoesOn(qty: real, venue: Venue, late: nat -> bool, sizes: seq<real>, i: nat)
    requires i < |sizes|
  {
    match venue(i, sizes[i])
    case TimedOut => false
    case Rejected => true
    case Recorded(_) => late(i) && i + 1 < |sizes| ==> 2.0 * Filled(venue, sizes[..i + 1]) >= qty
  }

  // The course of an execution of a positive parent: every slice while it goes on; a timeout fails it there;
  // a late slice with less than half filled is followed by one order for what is not filled, and no more.
  lemma Course(qty: real, venue: Venue, late: nat -> bool, sizes: seq<real>, i: nat)
    requires qty > 0.0 && i <= |sizes| && forall j :: 0 <= j < i ==> GoesOn(qty, venue, late, sizes, j)
    ensures i == |sizes| ==> Executed(qty, venue, late, sizes) == Execution(sizes, false)
    ensures i < |sizes| && !GoesOn(qty, venue, late, sizes, i) ==>
      var done := sizes[..i + 1];
      var rest := qty - Filled(venue, done);
      Executed(qty, venue, late, sizes) ==
        if venue(i, sizes[i]).TimedOut? then Execution(done, true)
        else Execution(done + [rest], venue(i + 1, rest).TimedOut?)
  {
    hide Filled;
    forall j | 0 <= j < i ensures !EndsAt(qty, venue, late, sizes, j) {
      GoesOnIff(qty, venue, late, sizes, j);
    }
    if i < |sizes| {
      GoesOnIff(qty, venue, late, sizes, i);
    }
    var e := FirstEnd(qty, venue, late, sizes, 0);
    assert e >= i;
  }

  lemma GoesOnIff(qty: real, venue: Venue, late: nat -> bool, sizes: seq<real>, i: nat)
    requires qty > 0.0 && i < |sizes|
    ensures GoesOn(qty, venue, late, sizes, i) <==> !EndsAt(qty, venue, late, sizes, i)
  {
    hide Filled;
    HalfShare(qty, Filled(venue, sizes[..i + 1]));
  }

  lemma HalfShare(qty: real, filled: real)
    requires qty > 0.0
    ensures filled / qty < 0.5 <==> 2.0 * filled < qty
  {
    DivMul(filled, qty);
    if filled / qty < 0.5 {
      MulStrict(filled / qty, 0.5, qty);
    } else {
      MulMono(0.5, filled / qty, qty);
    }
  }

  // What a plan gives is what the bounds ask for.
  lemma PlansAreSliced(config: Config, parent: Parent, step: Option<real>, floor: Option<real>)
    ensures var r := PlanSizes(config, parent.quantity, parent.price, step, floor);
      r.Success? && r.value != [] ==> Sliced(parent.quantity, r.value)
  {
    hide PlanSizes, Sum;
    PlanIsSound(config, parent.quantity, parent.price, step, floor);
  }

  // Two slices of 1, the first recorded unfilled and late: the urgent order of 2 makes 3 in all.
  lemma ThreeForTwo()
    ensures PlanSizes(Config(2, 2, 1.0), 2.0, None, None, None) == Success([1.0, 1.0])
    ensures Executed(2.0, (n, size) => Recorded(0.0), i => true, [1.0, 1.0]) == Execution([1.0, 2.0], false)
  {
    hide Sum, FillsOf, Filled, FirstEnd, Executed, PlanSizes;
    TwoSlices();
    var venue: Venue, late: nat -> bool := (n, size) => Recorded(0.0), i => true;
    assert [1.0, 1.0][..1] == [] + [1.0];
    NothingFilled(venue);
    FillsSnoc(venue, [], 1.0);
    EndsHere(2.0, venue, late, [1.0, 1.0], 0);
    assert [1.0, 1.0][..1] + [2.0] == [1.0, 2.0];
  }

  lemma TwoSlices()
    ensures PlanSizes(Config(2, 2, 1.0), 2.0, None, None, None) == Success([1.0, 1.0])
  {
    assert (2.0 / 1.0).Floor == 2;
    assert Raw(2, 2, 1.0, 1) == [1.0];
    assert Raw(2, 2, 1.0, 2) == [1.0, 1.0];
  }
}
