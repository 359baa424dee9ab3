/** Order submission and tracking: pending confirmations, active orders, and a ring of completed ids. */
module OrderGateway {
  import opened OrderRetry
  import opened Wrappers

  datatype Order = Order(exchangeId: Option<int>, status: Status, filled: real, price: Option<real>)

  datatype SubmitOutcome = BadConfig | RejectedBy | TimedOut | Tracked(ack: Ack)

  // ---------------------------------------------------------------- the ring buffer

  function Last(ids: seq<string>, max: nat): seq<string> {
    if |ids| <= max then ids else ids[|ids| - max..]
  }

  // As many of the latest as fit.
  lemma LastAreLatest(ids: seq<string>, max: nat)
    ensures var n := if |ids| < max then |ids| else max; Last(ids, max) == ids[|ids| - n..]
  {
    assert ids[0..] == ids;
  }

  // Appending to a bounded deque drops from the left.
  function Pushed(ring: seq<string>, id: string, max: nat): seq<string> {
    Last(ring + [id], max)
  }

  lemma RingIsLast(history: seq<string>, id: string, max: nat)
    ensures Pushed(Last(history, max), id, max) == Last(history + [id], max)
  {
    var ring := Last(history, max);
    if |history| >= max {
      if max == 0 {
        assert Pushed(ring, id, max) == [] == Last(history + [id], max);
      } else {
        assert ring + [id] == (history + [id])[|history| - max..];
      }
    }
  }

  // ---------------------------------------------------------------- refresh

  // The exchange's view of an order: of a listed open order, or of a single status query.
  datatype Seen = Seen(status: Status, filled: real, price: Option<real>)
  datatype Query = Known(seen: Seen) | Unknown | NotFound | Broken

  datatype Refreshed = Refreshed(order: Order, done: bool)

  // One order's reconciliation against the open-order list and, if absent there, a query.
  function Refresh(order: Order, open: map<int, Seen>, queries: int -> Query): Refreshed {
    if order.exchangeId == None then Refreshed(order, Terminal(order.status))
    else if Terminal(order.status) then Refreshed(order, true)
    else
      var id := order.exchangeId.value;
      if id in open then
        Refreshed(order.(status := open[id].status, filled := open[id].filled, price := open[id].price), false)
      else
        match queries(id)
        case NotFound => Refreshed(order.(status := Cancelled), true)
        case Broken => Refreshed(order, false)
        case Unknown => Refreshed(order.(status := Cancelled), true)
        case Known(seen) =>
          Refreshed(order.(status := seen.status, filled := seen.filled), Terminal(seen.status))
  }

  // The order is not terminal, and the exchange still lists it, or reports a non-terminal status, or
  // cannot be asked.
  predicate StillOpen(order: Order, open: map<int, Seen>, queries: int -> Query) {
    && order.status in {New, PartiallyFilled, OtherStatus}
    && (order.exchangeId.Some? ==>
          || order.exchangeId.value in open
          || queries(order.exchangeId.value).Broken?
          || (queries(order.exchangeId.value).Known?
              && queries(order.exchangeId.value).seen.status in {New, PartiallyFilled, OtherStatus}))
  }

  // What a refresh makes of an order: as listed; as a single query reports it, at its own price; cancelled if the
  // exchange knows nothing of it; unchanged if it has no exchange id, is terminal, or cannot be asked about.
  predicate Updated(order: Order, open: map<int, Seen>, queries: int -> Query, after: Order) {
    if order.exchangeId == None || order.status in {Filled, Cancelled, Rejected, Expired} then after == order
    else
      var id := order.exchangeId.value;
      && after.exchangeId == order.exchangeId
      && if id in open then
           after.status == open[id].status && after.filled == open[id].filled && after.price == open[id].price
         else
           && after.price == order.price
           && match queries(id)
              case Known(seen) => after.status == seen.status && after.filled == seen.filled
              case Broken => after == order
              case _ => after.status == Cancelled && after.filled == order.filled
  }

  lemma RefreshUpdates(order: Order, open: map<int, Seen>, queries: int -> Query)
    ensures Updated(order, open, queries, Refresh(order, open, queries).order)
  {
  }

  lemma SurvivesIffStillOpen(order: Order, open: map<int, Seen>, queries: int -> Query)
    ensures !Refresh(order, open, queries).done <==> StillOpen(order, open, queries)
  {
    hide Terminal;
    TerminalOrNot(order.status);
    if order.exchangeId.Some? && queries(order.exchangeId.value).Known? {
      TerminalOrNot(queries(order.exchangeId.value).seen.status);
    }
  }

  lemma TerminalOrNot(s: Status)
    ensures Terminal(s) <==> s !in {New, PartiallyFilled, OtherStatus}
  {
    match s
    case New =>
    case PartiallyFilled =>
    case Filled =>
    case Cancelled =>
    case Rejected =>
    case Expired =>
    case OtherStatus =>
  }

  // An open order as the exchange lists it.
  datatype Listed = Listed(clientId: string, order: Order)

  predicate IsFirst(listed: seq<Listed>, id: string, i: nat) {
    i < |listed| && listed[i].clientId == id && forall j :: 0 <= j < i ==> listed[j].clientId != id
  }

  ghost predicate NoDuplicates(ids: seq<string>) {
    forall i, j :: 0 <= i < j < |ids| ==> ids[i] != ids[j]
  }

  lemma OnceMore(ids: seq<string>, id: string)
    ensures NoDuplicates(ids + [id]) <==> NoDuplicates(ids) && id !in ids
  {
    var more := ids + [id];
    assert forall i :: 0 <= i < |ids| ==> more[i] == ids[i];
    if i :| 0 <= i < |ids| && ids[i] == id {
      assert more[i] == more[|ids|];
    }
  }

  class Gateway {
    const maxRetries: int
    const ringSize: nat
    var active: map<string, Order>
    var completed: seq<string>
    var pending: set<string>

    // Every completion ever, in order, and every id ever tracked.
    ghost var history: seq<string>
    ghost var everTracked: set<string>

    // The ring holds the latest completions; each tracked id is active or completed, never both
    // and never completed twice.
    ghost predicate Tracking()
      reads this`active, this`completed, this`history, this`everTracked
    {
      && completed == Last(history, ringSize)
      && NoDuplicates(history)
      && (forall id :: id in history ==> id !in active)
      && (forall id :: id in everTracked <==> id in active || id in history)
    }

    ghost predicate Valid()
      reads this
    {
      pending == {} && Tracking()
    }

    constructor (maxRetries: int, ringSize: nat)
      ensures Valid() && this.maxRetries == maxRetries && this.ringSize == ringSize
      ensures active == map[] && everTracked == {}
    {
      this.maxRetries, this.ringSize := maxRetries, ringSize;
      active, completed, pending := map[], [], {};
      history, everTracked := [], {};
    }

    method MoveToCompleted(id: string)
      requires Tracking()
      modifies this`active, this`completed, this`history
      ensures Tracking()
      ensures id in old(active) ==> active == old(active) - {id} && history == old(history) + [id]
      ensures id !in old(active) ==> active == old(active) && history == old(history)
    {
      if id in active {
        RingIsLast(history, id, ringSize);
        active := active - {id};
        completed := Pushed(completed, id, ringSize);
        history := history + [id];
      }
    }

    static function SubmitId(clientId: string, fresh_: string): string {
      if clientId != "" then clientId else fresh_
    }

    // Submits under the caller's client id, or `fresh` if it gave none. `confirmed` says whether
    // anything else sets the confirmation event while a non-terminal order waits for it.
    method Submit(clientId: string, fresh_: string, orders: seq<string>, nets: nat -> Net, confirmed: bool)
      returns (outcome: SubmitOutcome, ordersAfter: seq<string>)
      requires Valid()
      modifies this
      ensures var id := SubmitId(clientId, fresh_);
        && (outcome.BadConfig? <==> maxRetries < 1)
        && (maxRetries >= 1 ==> ordersAfter == Submission(orders, id, nets, 1, maxRetries).orders)
        && (maxRetries >= 1 ==>
              match Submission(orders, id, nets, 1, maxRetries).outcome
              case Returned(ack) =>
                outcome == if ack.status in {Filled, Cancelled, Rejected, Expired} || confirmed then Tracked(ack) else TimedOut
              case _ => outcome == RejectedBy)
        && (maxRetries < 1 ==> ordersAfter == orders)
        && pending == (if maxRetries < 1 then {id} else {})
        && everTracked == (if outcome.Tracked? then old(everTracked) + {id} else old(everTracked))
        && (match outcome
            case Tracked(ack) =>
              if Terminal(ack.status) then active == old(active) - {id} && history == old(history) + [id]
              else
                && active == old(active)[id := Order(ack.orderId, ack.status, ack.filled, ack.price)]
                && history == old(history)
            case _ => active == old(active) && history == old(history))
        && (Valid() <==> maxRetries >= 1 && !(outcome.Tracked? && id in old(history)))
      ensures !confirmed && old(active) == map[] ==> active == map[]
    {
      var id := if clientId != "" then clientId else fresh_;
      pending := pending + {id};
      var r := RetrySubmit(orders, id, nets, maxRetries);
      if r == None {
        assert id in pending;
        return BadConfig, orders;
      }
      ordersAfter := r.value.orders;
      if !r.value.outcome.Returned? {
        pending := pending - {id};
        return RejectedBy, ordersAfter;
      }
      var ack := r.value.outcome.ack;
      if !Terminal(ack.status) && !confirmed {
        pending := pending - {id};
        return TimedOut, ordersAfter;
      }
      pending := pending - {id};
      Track(id, ack);
      outcome := Tracked(ack);
    }

    // Records an acknowledged order; a terminal one goes straight to the completed ring.
    method Track(id: string, ack: Ack)
      requires Tracking()
      modifies this`active, this`completed, this`history, this`everTracked
      ensures everTracked == old(everTracked) + {id}
      ensures if Terminal(ack.status) then active == old(active) - {id} && history == old(history) + [id]
        else active == old(active)[id := Order(ack.orderId, ack.status, ack.filled, ack.price)] && history == old(history)
      ensures Tracking() <==> id !in old(history)
    {
      hide NoDuplicates, Last, Pushed, Terminal;
      OnceMore(history, id);
      active := active[id := Order(ack.orderId, ack.status, ack.filled, ack.price)];
      everTracked := everTracked + {id};
      if Terminal(ack.status) {
        RingIsLast(history, id, ringSize);
        active := active - {id};
        completed := Pushed(completed, id, ringSize);
        history := history + [id];
      }
    }

    // `accepted` is the exchange's answer; None when the call raised.
    method Cancel(id: string, accepted: Option<bool>) returns (cancelled: bool)
      requires Valid()
      modifies this
      ensures Valid() && everTracked == old(everTracked)
      ensures cancelled <==> id in old(active) && old(active)[id].exchangeId.Some? && accepted == Some(true)
      ensures if cancelled then active == old(active) - {id} && history == old(history) + [id]
        else active == old(active) && history == old(history)
    {
      if id !in active || active[id].exchangeId == None {
        return false;
      }
      if accepted == Some(true) {
        active := active[id := active[id].(status := Cancelled)];
        MoveToCompleted(id);
        return true;
      }
      cancelled := false;
    }

    // Freshens a tracked order; it may become terminal here and is evicted by the next refresh. An order
    // that is not tracked is the first of the exchange's open orders under the id, if they can be fetched.
    method GetStatus(id: string, query: Query, open: Option<seq<Listed>>) returns (order: Option<Order>)
      requires Valid()
      modifies this
      ensures Valid() && history == old(history) && active.Keys == old(active).Keys
      ensures forall other :: other in active && other != id ==> active[other] == old(active)[other]
      ensures id in active ==>
        && order == Some(active[id])
        && active[id] == (if old(active)[id].exchangeId.Some? && query.Known? then
                            old(active)[id].(status := query.seen.status, filled := query.seen.filled)
                          else old(active)[id])
      ensures id !in active ==>
        if open.Some? && exists i :: 0 <= i < |open.value| && open.value[i].clientId == id then
          exists i: nat :: IsFirst(open.value, id, i) && order == Some(open.value[i].order)
        else order == None
    {
      if id in active {
        if active[id].exchangeId.Some? && query.Known? {
          active := active[id := active[id].(status := query.seen.status, filled := query.seen.filled)];
        }
        return Some(active[id]);
      }
      if open.Some? {
        for i := 0 to |open.value|
          invariant forall j :: 0 <= j < i ==> open.value[j].clientId != id
        {
          if open.value[i].clientId == id {
            assert IsFirst(open.value, id, i);
            return Some(open.value[i].order);
          }
        }
      }
      order := None;
    }

    // `open` is the fetched list of open orders, None when the fetch failed.
    method RefreshState(open: Option<map<int, Seen>>, queries: int -> Query)
      requires Valid()
      modifies this
      ensures Valid() && everTracked == old(everTracked)
      ensures open == None ==> active == old(active) && history == old(history)
      ensures open.Some? ==> forall id :: id in active <==>
        (id in old(active) && StillOpen(old(active)[id], open.value, queries))
      ensures open.Some? ==> forall id :: id in active ==>
        Updated(old(active)[id], open.value, queries, active[id])
      ensures old(history) <= history
      ensures forall id :: id in history[|old(history)|..] <==> id in old(active) && id !in active
    {
      if open == None {
        return;
      }
      hide Refresh, StillOpen, Updated;
      var toRemove := set id | id in active && Refresh(active[id], open.value, queries).done;
      forall id | id in active ensures id !in toRemove <==> StillOpen(active[id], open.value, queries) {
        SurvivesIffStillOpen(active[id], open.value, queries);
      }
      forall id | id in active
        ensures Updated(active[id], open.value, queries, Refresh(active[id], open.value, queries).order)
      {
        RefreshUpdates(active[id], open.value, queries);
      }
      active := map id | id in active :: Refresh(active[id], open.value, queries).order;
      Evict(toRemove);
    }

    method Evict(ids: set<string>)
      requires Tracking() && ids <= active.Keys
      modifies this`active, this`completed, this`history
      ensures Tracking()
      ensures active == old(active) - ids
      ensures old(history) <= history
      ensures forall id :: id in history[|old(history)|..] <==> id in ids
    {
      hide *;
      var todo := ids;
      while todo != {}
        invariant todo <= ids && todo <= active.Keys
        invariant Tracking()
        invariant active == old(active) - (ids - todo)
        invariant old(history) <= history
        invariant forall id :: id in history[|old(history)|..] <==> id in ids - todo
        decreases |todo|
      {
        var id :| id in todo;
        ghost var before := history;
        MoveToCompleted(id);
        assert history[|old(history)|..] == before[|old(history)|..] + [id];
        todo := todo - {id};
      }
    }
  }
}
