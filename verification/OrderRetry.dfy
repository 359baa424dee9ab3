/** Bounded retry with capped exponential backoff, and order submission over a lossy link. */
module OrderRetry {
  import opened Wrappers

  // ---------------------------------------------------------------- backoff

  function Power(base: real, n: nat): real {
    if n == 0 then 1.0 else base * Power(base, n - 1)
  }

  // Delay before retry `attempt`, without jitter; None for an attempt below 1, which is an error.
  function ExponentialBackoff(attempt: int, base: real, multiplier: real, cap: Option<real>): Option<real> {
    if attempt < 1 then None
    else
      var delay := base * Power(multiplier, attempt - 1);
      Some(if cap.Some? && cap.value < delay then cap.value else delay)
  }

  // The schedule of order submission: 1 s doubling, capped at 30 s.
  function SubmitDelay(attempt: nat): real
    requires attempt >= 1
  {
    ExponentialBackoff(attempt, 1.0, 2.0, Some(30.0)).value
  }

  // Seconds slept when attempts 1 .. n all fail transiently: after each but the last.
  function SleptAfter(n: nat): real {
    if n <= 1 then 0.0 else SleptAfter(n - 1) + SubmitDelay(n - 1)
  }

  lemma {:induction false} PowerOfTwoIsLarge(n: nat)
    requires n >= 5
    ensures Power(2.0, n) >= 32.0
  {
    if n == 5 {
      assert Power(2.0, 1) == 2.0 && Power(2.0, 2) == 4.0;
      assert Power(2.0, 3) == 8.0 && Power(2.0, 4) == 16.0;
    } else {
      PowerOfTwoIsLarge(n - 1);
    }
  }

  lemma {:induction false} PowerOfTwoIsSmall(n: nat)
    requires n <= 4
    ensures Power(2.0, n) <= 16.0
  {
    if n > 0 {
      PowerOfTwoIsSmall(n - 1);
      assert Power(2.0, 1) == 2.0 && Power(2.0, 2) == 4.0;
      assert Power(2.0, 3) == 8.0 && Power(2.0, 4) == 16.0;
    }
  }

  // Total sleep of an all-transient submission: doubling up to the cap, then 30 s a retry.
  lemma {:induction false} SleepClosedForm(n: nat)
    requires n >= 1
    ensures SleptAfter(n) == if n <= 6 then Power(2.0, n - 1) - 1.0 else 31.0 + 30.0 * (n - 6) as real
  {
    if n > 1 {
      SleepClosedForm(n - 1);
      if n - 2 >= 5 {
        PowerOfTwoIsLarge(n - 2);
      } else {
        PowerOfTwoIsSmall(n - 2);
      }
      if n == 7 {
        assert Power(2.0, 5) == 32.0 by {
          assert Power(2.0, 1) == 2.0 && Power(2.0, 2) == 4.0;
          assert Power(2.0, 3) == 8.0 && Power(2.0, 4) == 16.0;
        }
      }
    }
  }

  // ---------------------------------------------------------------- the link and the exchange

  datatype Status = New | PartiallyFilled | Filled | Cancelled | Rejected | Expired | OtherStatus

  predicate Terminal(s: Status) {
    s in {Filled, Cancelled, Rejected, Expired}
  }

  datatype Ack = Ack(orderId: Option<int>, status: Status, filled: real, price: Option<real>)

  // How the exchange would answer a new id, and what the link does to one attempt.
  datatype Answer = Accept(ack: Ack) | Refuse
  datatype Net = Undelivered | Delivered(answer: Answer, replyLost: bool)

  // What the adapter reports: an acknowledgement, a transient error, or any other error.
  datatype Reply = Acked(ack: Ack) | Transient | Refused

  // The exchange keeps the client ids of the orders it created and refuses an id it knows.
  function Place(orders: seq<string>, id: string, net: Net): (seq<string>, Reply) {
    match net
    case Undelivered => (orders, Transient)
    case Delivered(answer, replyLost) =>
      if id in orders || answer.Refuse? then (orders, if replyLost then Transient else Refused)
      else (orders + [id], if replyLost then Transient else Acked(answer.ack))
  }

  datatype Outcome = Returned(ack: Ack) | NonTransient | Exhausted

  datatype Attempted = Attempted(orders: seq<string>, outcome: Outcome, calls: nat, slept: real)

  // Attempts `attempt` .. `attempts` of one submission under one client id.
  function Submission(orders: seq<string>, id: string, nets: nat -> Net, attempt: nat, attempts: nat): Attempted
    requires 1 <= attempt <= attempts
    decreases attempts - attempt
  {
    var (after, reply) := Place(orders, id, nets(attempt));
    match reply
    case Acked(ack) => Attempted(after, Returned(ack), 1, 0.0)
    case Refused => Attempted(after, NonTransient, 1, 0.0)
    case Transient =>
      if attempt == attempts then Attempted(after, Exhausted, 1, 0.0)
      else
        var rest := Submission(after, id, nets, attempt + 1, attempts);
        rest.(calls := rest.calls + 1, slept := rest.slept + SubmitDelay(attempt))
  }

  // Fewer than one attempt is an error, reported as None.
  method RetrySubmit(orders: seq<string>, id: string, nets: nat -> Net, attempts: int) returns (r: Option<Attempted>)
    ensures r == if attempts < 1 then None else Some(Submission(orders, id, nets, 1, attempts))
  {
    if attempts < 1 {
      return None;
    }
    var now, slept := orders, 0.0;
    for attempt := 1 to attempts + 1
      invariant attempt <= attempts
      invariant var whole, rest := Submission(orders, id, nets, 1, attempts), Submission(now, id, nets, attempt, attempts);
        && whole.orders == rest.orders && whole.outcome == rest.outcome
        && whole.calls == rest.calls + attempt - 1 && whole.slept == rest.slept + slept
    {
      var (after, reply) := Place(now, id, nets(attempt));
      now := after;
      if reply.Acked? {
        return Some(Attempted(now, Returned(reply.ack), attempt, slept));
      }
      if reply.Refused? {
        return Some(Attempted(now, NonTransient, attempt, slept));
      }
      if attempt >= attempts {
        return Some(Attempted(now, Exhausted, attempt, slept));
      }
      slept := slept + SubmitDelay(attempt);
    }
    assert false;
  }

  // Attempt k reached the exchange with an acceptable order and its reply was lost.
  predicate LostAcceptance(net: Net) {
    net.Delivered? && net.answer.Accept? && net.replyLost
  }

  // Whatever is lost on the way, one submission makes at most `attempts` calls and creates at most
  // one order, none under another id; exactly one if it returns.
  lemma {:induction false} AtMostOneOrder(orders: seq<string>, id: string, nets: nat -> Net, attempt: nat, attempts: nat)
    requires 1 <= attempt <= attempts
    ensures var r := Submission(orders, id, nets, attempt, attempts);
      && 1 <= r.calls <= attempts - attempt + 1
      && (r.orders == orders || (r.orders == orders + [id] && id !in orders))
      && (r.outcome.Returned? ==> r.orders == orders + [id] && id !in orders)
    decreases attempts - attempt
  {
    var (after, reply) := Place(orders, id, nets(attempt));
    if reply.Transient? && attempt < attempts {
      AtMostOneOrder(after, id, nets, attempt + 1, attempts);
    }
  }

  // A failed submission of a fresh id has nevertheless created the order exactly when the reply to
  // an acceptance was lost on one of its calls; after such a loss it never returns normally.
  lemma {:induction false} FailureMayHideAnOrder(orders: seq<string>, id: string, nets: nat -> Net, attempt: nat, attempts: nat)
    requires 1 <= attempt <= attempts && id !in orders
    ensures var r := Submission(orders, id, nets, attempt, attempts);
      !r.outcome.Returned? ==>
        (id in r.orders <==> exists k: nat :: attempt <= k < attempt + r.calls && LostAcceptance(nets(k)))
    ensures var r := Submission(orders, id, nets, attempt, attempts);
      r.outcome.Returned? ==> forall k: nat :: attempt <= k < attempt + r.calls ==> !LostAcceptance(nets(k))
    decreases attempts - attempt
  {
    var (after, reply) := Place(orders, id, nets(attempt));
    if reply.Transient? && attempt < attempts {
      var rest := Submission(after, id, nets, attempt + 1, attempts);
      if id in after {
        assert LostAcceptance(nets(attempt));
        AtMostOneOrder(after, id, nets, attempt + 1, attempts);
      } else {
        FailureMayHideAnOrder(after, id, nets, attempt + 1, attempts);
        if rest.outcome.Returned? {
        } else if id in rest.orders {
          var k: nat :| attempt + 1 <= k < attempt + 1 + rest.calls && LostAcceptance(nets(k));
          assert attempt <= k < attempt + (rest.calls + 1);
        }
      }
    } else if reply.Transient? {
      assert LostAcceptance(nets(attempt)) <==> id in after;
    }
  }

  // The attempt leaves no answer: it was not delivered, or the reply got lost.
  predicate Silent(net: Net) {
    net.Undelivered? || net.replyLost
  }

  // The course of a submission: attempts follow one another, with the delays between them, while they leave no
  // answer; the first answer decides. It is the order's acknowledgement if the exchange accepts the id for the
  // first time, and otherwise an error that is not retried.
  lemma {:induction false} Course(orders: seq<string>, id: string, nets: nat -> Net, attempt: nat, attempts: nat)
    requires 1 <= attempt <= attempts
    ensures var r := Submission(orders, id, nets, attempt, attempts);
      var last := attempt + r.calls - 1;
      && attempt <= last <= attempts
      && (forall j: nat :: attempt <= j < last ==> Silent(nets(j)))
      && (if Silent(nets(last)) then r.outcome == Exhausted && last == attempts
          else if nets(last).answer.Accept? && id !in orders
                 && (forall j: nat :: attempt <= j < last ==> !LostAcceptance(nets(j))) then
            r.outcome == Returned(nets(last).answer.ack) && r.orders == orders + [id]
          else r.outcome == NonTransient)
      && r.slept == SleptAfter(last) - SleptAfter(attempt)
    decreases attempts - attempt
  {
    hide SubmitDelay;
    var (after, reply) := Place(orders, id, nets(attempt));
    if reply.Transient? && attempt < attempts {
      Course(after, id, nets, attempt + 1, attempts);
    }
  }

  // When every attempt fails transiently, all are made and the sleep is that of the closed form.
  lemma {:induction false} AllTransient(orders: seq<string>, id: string, nets: nat -> Net, attempt: nat, attempts: nat)
    requires 1 <= attempt <= attempts
    requires forall k :: attempt <= k <= attempts ==> nets(k).Undelivered? || nets(k).replyLost
    ensures var r := Submission(orders, id, nets, attempt, attempts);
      r.outcome == Exhausted && r.calls == attempts - attempt + 1
      && r.slept == SleptAfter(attempts) - SleptAfter(attempt)
    decreases attempts - attempt
  {
    if attempt < attempts {
      var (after, reply) := Place(orders, id, nets(attempt));
      AllTransient(after, id, nets, attempt + 1, attempts);
    }
  }
}
