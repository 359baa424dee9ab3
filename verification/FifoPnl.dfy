/** What first-in-first-out pairing conserves: booked PnL, money moved, open entries, and the drift. */
module FifoPnl {
  import opened Reals
  import opened TradeJournal
  import opened Wrappers

  // ---------------------------------------------------------------- the queues in closed form

  function PricesOf(legs: seq<Fill>, side: Side): seq<real> {
    if legs == [] then []
    else
      var n := |legs| - 1;
      var front := PricesOf(legs[..n], side);
      if legs[n].side == side then front + [legs[n].price] else front
  }

  // Closed form of the queues: one side is empty and the other holds the most recent prices of
  // its side, as many as that side leads by.
  lemma {:induction false} QueuesClosedForm(legs: seq<Fill>)
    ensures var buys, sells, q := PricesOf(legs, Buy), PricesOf(legs, Sell), QueuesAfter(legs);
      && (|buys| >= |sells| ==> q == Queues(buys[|sells|..], []))
      && (|buys| <= |sells| ==> q == Queues([], sells[|buys|..]))
  {
    if legs != [] {
      QueuesClosedForm(legs[..|legs| - 1]);
    }
  }

  // ---------------------------------------------------------------- what is skipped

  function SumPnl(rows: seq<Row>): real {
    if rows == [] then 0.0 else SumPnl(rows[..|rows| - 1]) + rows[|rows| - 1].pnl
  }

  lemma SumPnlSnoc(rows: seq<Row>, r: Row)
    ensures SumPnl(rows + [r]) == SumPnl(rows) + r.pnl
  {
    assert (rows + [r])[..|rows|] == rows;
  }

  lemma {:induction false} NewRowsBound(legs: seq<Fill>, keys: set<Key>)
    ensures |NewRows(legs, keys)| <= |legs|
  {
    if legs != [] {
      NewRowsBound(legs[..|legs| - 1], keys);
    }
  }

  function LegKeys(legs: seq<Fill>): set<Key> {
    set f | f in legs :: (f.orderId, f.side)
  }

  ghost predicate DistinctKeys(legs: seq<Fill>) {
    forall i, j :: 0 <= i < j < |legs| && legs[j].orderId != 0 ==>
      (legs[i].orderId, legs[i].side) != (legs[j].orderId, legs[j].side)
  }

  lemma {:induction false} AllInsertedKeys(legs: seq<Fill>, keys: set<Key>)
    requires |NewRows(legs, keys)| == |legs|
    ensures Keys(NewRows(legs, keys)) == LegKeys(legs)
  {
    hide NewRows, Keys, LegKeys, QueuesAfter, Journalled;
    if legs != [] {
      var n := |legs| - 1;
      NewRowsBound(legs[..n], keys);
      assert legs == legs[..n] + [legs[n]];
      NewRowsSnoc(legs[..n], legs[n], keys);
      AllInsertedKeys(legs[..n], keys);
      KeysSnoc(NewRows(legs[..n], keys), RowFor(QueuesAfter(legs[..n]), legs[n]));
      LegKeysSnoc(legs[..n], legs[n]);
    } else {
      NothingInserted(keys);
    }
  }

  lemma NothingInserted(keys: set<Key>)
    ensures Keys(NewRows([], keys)) == LegKeys([])
  {
  }

  lemma LegKeysSnoc(legs: seq<Fill>, f: Fill)
    ensures LegKeys(legs + [f]) == LegKeys(legs) + {(f.orderId, f.side)}
  {
    assert forall g :: g in legs + [f] <==> g in legs || g == f;
  }

  lemma LegKeysMembers(legs: seq<Fill>, k: Key)
    ensures k in LegKeys(legs) <==> exists i :: 0 <= i < |legs| && (legs[i].orderId, legs[i].side) == k
  {
    if i :| 0 <= i < |legs| && (legs[i].orderId, legs[i].side) == k {
      assert legs[i] in legs;
    }
  }

  lemma DistinctSnoc(legs: seq<Fill>, f: Fill)
    ensures DistinctKeys(legs + [f]) <==>
      DistinctKeys(legs) && (f.orderId != 0 ==> (f.orderId, f.side) !in LegKeys(legs))
  {
    var all := legs + [f];
    LegKeysMembers(legs, (f.orderId, f.side));
    assert all[|legs|] == f && forall i :: 0 <= i < |legs| ==> all[i] == legs[i];
    if DistinctKeys(all) {
      assert DistinctKeys(legs);
    }
  }

  ghost predicate NoneJournalled(legs: seq<Fill>, keys: set<Key>) {
    forall f :: f in legs ==> !Journalled(keys, f)
  }

  lemma NoneJournalledSnoc(legs: seq<Fill>, f: Fill, keys: set<Key>)
    ensures NoneJournalled(legs + [f], keys) <==> NoneJournalled(legs, keys) && !Journalled(keys, f)
  {
    assert forall g :: g in legs + [f] <==> g in legs || g == f;
  }

  // No leg is skipped exactly when none is journalled beforehand and no two share a real order id and side.
  lemma {:induction false} NothingSkipped(legs: seq<Fill>, keys: set<Key>)
    ensures |NewRows(legs, keys)| == |legs| <==> NoneJournalled(legs, keys) && DistinctKeys(legs)
  {
    if legs != [] {
      var n := |legs| - 1;
      NothingSkipped(legs[..n], keys);
      assert legs == legs[..n] + [legs[n]];
      NewRowsBound(legs[..n], keys);
      DistinctSnoc(legs[..n], legs[n]);
      NoneJournalledSnoc(legs[..n], legs[n], keys);
      NewRowsSnoc(legs[..n], legs[n], keys);
      if |NewRows(legs[..n], keys)| == n {
        AllInsertedKeys(legs[..n], keys);
      }
    }
  }

  // ---------------------------------------------------------------- open entries with their quantities

  // The fills behind the queued prices.
  datatype Entries = Entries(longs: seq<Fill>, shorts: seq<Fill>)

  function Enter(e: Entries, f: Fill): Entries {
    match f.side
    case Buy => if e.shorts != [] then e.(shorts := e.shorts[1..]) else e.(longs := e.longs + [f])
    case Sell => if e.longs != [] then e.(longs := e.longs[1..]) else e.(shorts := e.shorts + [f])
    case OtherSide(_) => e
  }

  function EntriesAfter(legs: seq<Fill>): Entries {
    if legs == [] then Entries([], []) else Enter(EntriesAfter(legs[..|legs| - 1]), legs[|legs| - 1])
  }

  // The entry a leg closes, if it closes one.
  function Closed(e: Entries, f: Fill): Option<Fill> {
    if f.side == Buy && e.shorts != [] then Some(e.shorts[0])
    else if f.side == Sell && e.longs != [] then Some(e.longs[0])
    else None
  }

  function Prices(fills: seq<Fill>): (prices: seq<real>)
    ensures |prices| == |fills| && forall i :: 0 <= i < |fills| ==> prices[i] == fills[i].price
  {
    if fills == [] then [] else Prices(fills[..|fills| - 1]) + [fills[|fills| - 1].price]
  }

  lemma {:induction false} EntriesAreQueues(legs: seq<Fill>)
    ensures var e := EntriesAfter(legs); QueuesAfter(legs) == Queues(Prices(e.longs), Prices(e.shorts))
  {
    hide Prices;
    if legs != [] {
      EntriesAreQueues(legs[..|legs| - 1]);
      var e, f := EntriesAfter(legs[..|legs| - 1]), legs[|legs| - 1];
      assert Prices(Enter(e, f).longs) == Advance(Queues(Prices(e.longs), Prices(e.shorts)), f).longs;
      assert Prices(Enter(e, f).shorts) == Advance(Queues(Prices(e.longs), Prices(e.shorts)), f).shorts;
    }
  }

  // ---------------------------------------------------------------- the drift

  function Value(f: Fill): real {
    f.price * f.quantity
  }

  function Worth(fills: seq<Fill>): real {
    if fills == [] then 0.0 else Worth(fills[..|fills| - 1]) + Value(fills[|fills| - 1])
  }

  // What a leg brings in, or pays.
  function Money(f: Fill): real {
    if f.side == Sell then Value(f) else if f.side == Buy then -Value(f) else 0.0
  }

  function MoneyOf(legs: seq<Fill>): real {
    if legs == [] then 0.0 else MoneyOf(legs[..|legs| - 1]) + Money(legs[|legs| - 1])
  }

  // What a close books beyond the value of the entry it pops and its own: by pairing, the entry price
  // times the difference of the quantities; with a PnL reported by the exchange, whatever that adds.
  function Drift(e: Entries, f: Fill): real {
    var entry := Closed(e, f);
    if entry.None? then 0.0
    else if f.pnl.Some? then f.pnl.value - (if f.side == Sell then Value(f) - Value(entry.value) else Value(entry.value) - Value(f))
    else if f.side == Sell then entry.value.price * (entry.value.quantity - f.quantity)
    else entry.value.price * (f.quantity - entry.value.quantity)
  }

  function DriftOf(legs: seq<Fill>): real {
    if legs == [] then 0.0
    else DriftOf(legs[..|legs| - 1]) + Drift(EntriesAfter(legs[..|legs| - 1]), legs[|legs| - 1])
  }

  function PnlOf(legs: seq<Fill>): real {
    if legs == [] then 0.0
    else PnlOf(legs[..|legs| - 1]) + LegPnl(QueuesAfter(legs[..|legs| - 1]), legs[|legs| - 1])
  }

  // Money the legs brought in, with what the open longs cost added back and what the open shorts
  // brought taken out.
  function Conserved(legs: seq<Fill>): real {
    MoneyOf(legs) + Worth(EntriesAfter(legs).longs) - Worth(EntriesAfter(legs).shorts)
  }

  lemma WorthSnoc(fills: seq<Fill>, f: Fill)
    ensures Worth(fills + [f]) == Worth(fills) + Value(f)
  {
    assert (fills + [f])[..|fills|] == fills;
  }

  lemma {:induction false} WorthPop(fills: seq<Fill>)
    requires fills != []
    ensures Worth(fills) == Value(fills[0]) + Worth(fills[1..])
  {
    hide Value;
    var n := |fills| - 1;
    if n == 0 {
      assert fills[..0] == [] && fills[1..] == [];
    } else {
      WorthPop(fills[..n]);
      assert fills[1..][..n - 1] == fills[..n][1..];
    }
  }

  // A leg's PnL against the head price, written with the head entry.
  lemma PnlByEntry(e: Entries, q: Queues, f: Fill)
    requires q == Queues(Prices(e.longs), Prices(e.shorts))
    ensures var entry := Closed(e, f);
      LegPnl(q, f) == Drift(e, f) +
        if entry.None? then 0.0
        else if f.side == Sell then Value(f) - Value(entry.value)
        else Value(entry.value) - Value(f)
  {
    hide Prices, Value;
    var entry := Closed(e, f);
    if entry.Some? && f.pnl.None? {
      if f.side == Sell {
        PairedLong(entry.value, f);
      } else {
        PairedShort(entry.value, f);
      }
    }
  }

  lemma PairedLong(entry: Fill, f: Fill)
    ensures (f.price - entry.price) * f.quantity ==
      Value(f) - Value(entry) + entry.price * (entry.quantity - f.quantity)
  {
    Exchange(f.price, entry.price, f.quantity, entry.quantity);
  }

  lemma PairedShort(entry: Fill, f: Fill)
    ensures (entry.price - f.price) * f.quantity ==
      Value(entry) - Value(f) + entry.price * (f.quantity - entry.quantity)
  {
    Exchange(f.price, entry.price, f.quantity, entry.quantity);
  }

  lemma Exchange(p: real, e: real, q: real, r: real)
    ensures (p - e) * q == p * q - e * r + e * (r - q)
    ensures (e - p) * q == e * r - p * q + e * (q - r)
  {
    MulSub(p, e, q);
    MulSub(e, p, q);
    MulSub(r, q, e);
    MulSub(q, r, e);
  }

  // How one leg moves the worth of the open entries.
  lemma EnterWorth(e: Entries, f: Fill)
    ensures var entry, next := Closed(e, f), Enter(e, f);
      Worth(next.longs) - Worth(next.shorts) - (Worth(e.longs) - Worth(e.shorts)) + Money(f) ==
        if entry.None? then 0.0
        else if f.side == Sell then Value(f) - Value(entry.value)
        else Value(entry.value) - Value(f)
  {
    hide Worth, Value;
    if f.side == Buy && e.shorts != [] {
      WorthPop(e.shorts);
    } else if f.side == Buy {
      WorthSnoc(e.longs, f);
    } else if f.side == Sell && e.longs != [] {
      WorthPop(e.longs);
    } else if f.side == Sell {
      WorthSnoc(e.shorts, f);
    }
  }

  // For any quantities and any reported PnL: what the legs book is the money they brought in, corrected
  // by the open entries, plus the drift of the closes.
  lemma {:induction false} PnlWithDrift(legs: seq<Fill>)
    ensures PnlOf(legs) == Conserved(legs) + DriftOf(legs)
  {
    hide *;
    if legs == [] {
      NothingBooked();
    } else {
      var front, f := legs[..|legs| - 1], legs[|legs| - 1];
      assert legs == front + [f];
      PnlWithDrift(front);
      EntriesAreQueues(front);
      PnlByEntry(EntriesAfter(front), QueuesAfter(front), f);
      ConservedStep(front, f);
      PnlStep(front, f);
    }
  }

  lemma NothingBooked()
    ensures PnlOf([]) == Conserved([]) == DriftOf([]) == 0.0
  {
  }

  lemma PnlStep(legs: seq<Fill>, f: Fill)
    ensures PnlOf(legs + [f]) == PnlOf(legs) + LegPnl(QueuesAfter(legs), f)
    ensures DriftOf(legs + [f]) == DriftOf(legs) + Drift(EntriesAfter(legs), f)
  {
    hide LegPnl, Drift;
    assert (legs + [f])[..|legs|] == legs;
  }

  lemma ConservedStep(legs: seq<Fill>, f: Fill)
    ensures var entry := Closed(EntriesAfter(legs), f);
      Conserved(legs + [f]) == Conserved(legs) +
        if entry.None? then 0.0
        else if f.side == Sell then Value(f) - Value(entry.value)
        else Value(entry.value) - Value(f)
  {
    hide Worth, Value, Money, Enter, Closed;
    assert (legs + [f])[..|legs|] == legs;
    EnterWorth(EntriesAfter(legs), f);
  }

  lemma NoWorth()
    ensures Worth([]) == 0.0
  {
  }

  // ---------------------------------------------------------------- what the journal books of it

  // The journal already holds the leg when its turn comes.
  predicate SkippedAt(legs: seq<Fill>, keys: set<Key>, k: nat)
    requires k < |legs|
  {
    Journalled(keys + Keys(NewRows(legs[..k], keys)), legs[k])
  }

  // What the skipped legs realize: they move the queues, but their PnL is not booked again.
  function SkippedPnl(legs: seq<Fill>, keys: set<Key>): real {
    if legs == [] then 0.0
    else
      var n := |legs| - 1;
      SkippedPnl(legs[..n], keys) + if SkippedAt(legs, keys, n) then LegPnl(QueuesAfter(legs[..n]), legs[n]) else 0.0
  }

  // What is booked and what is skipped is all that the legs realize.
  lemma {:induction false} BookedAndSkipped(legs: seq<Fill>, keys: set<Key>)
    ensures SumPnl(NewRows(legs, keys)) + SkippedPnl(legs, keys) == PnlOf(legs)
  {
    hide NewRows, SumPnl, LegPnl;
    if legs == [] {
      NothingNew(keys);
    } else {
      var n := |legs| - 1;
      assert legs == legs[..n] + [legs[n]];
      NewRowsSnoc(legs[..n], legs[n], keys);
      BookedAndSkipped(legs[..n], keys);
      if SkippedAt(legs, keys, n) {
        assert NewRows(legs, keys) == NewRows(legs[..n], keys);
      } else {
        SumPnlSnoc(NewRows(legs[..n], keys), RowFor(QueuesAfter(legs[..n]), legs[n]));
      }
    }
  }

  lemma NothingNew(keys: set<Key>)
    ensures NewRows([], keys) == [] && SumPnl([]) == 0.0
  {
  }

  // Every skipped leg opens a position, as the entries do that the engine wrote itself.
  ghost predicate OnlyOpeningsSkipped(legs: seq<Fill>, keys: set<Key>) {
    forall k :: 0 <= k < |legs| && SkippedAt(legs, keys, k) ==> Closed(EntriesAfter(legs[..k]), legs[k]).None?
  }

  // Skipping them loses nothing.
  lemma {:induction false} SkippedOpeningsLoseNothing(legs: seq<Fill>, keys: set<Key>)
    requires OnlyOpeningsSkipped(legs, keys)
    ensures SkippedPnl(legs, keys) == 0.0 && SumPnl(NewRows(legs, keys)) == PnlOf(legs)
  {
    hide NewRows, EntriesAfter, QueuesAfter, SumPnl, PnlOf;
    BookedAndSkipped(legs, keys);
    if legs != [] {
      var n := |legs| - 1;
      forall k | 0 <= k < n && SkippedAt(legs[..n], keys, k)
        ensures Closed(EntriesAfter(legs[..n][..k]), legs[..n][k]).None?
      {
        assert legs[..n][..k] == legs[..k];
        assert SkippedAt(legs, keys, k);
      }
      SkippedOpeningsLoseNothing(legs[..n], keys);
      EntriesAreQueues(legs[..n]);
    }
  }

  lemma {:induction false} AllInsertedSkipsNothing(legs: seq<Fill>, keys: set<Key>)
    requires |NewRows(legs, keys)| == |legs|
    ensures SkippedPnl(legs, keys) == 0.0
  {
    hide NewRows, LegPnl;
    if legs != [] {
      var n := |legs| - 1;
      assert legs == legs[..n] + [legs[n]];
      NewRowsSnoc(legs[..n], legs[n], keys);
      NewRowsBound(legs[..n], keys);
      AllInsertedSkipsNothing(legs[..n], keys);
    }
  }

  // The booked PnL, for any journal: conserved exactly when the drifts make up for what was skipped.
  lemma FifoDrift(legs: seq<Fill>, keys: set<Key>)
    ensures SumPnl(NewRows(legs, keys)) + SkippedPnl(legs, keys) == Conserved(legs) + DriftOf(legs)
    ensures SumPnl(NewRows(legs, keys)) == Conserved(legs) <==> DriftOf(legs) == SkippedPnl(legs, keys)
  {
    hide *;
    BookedAndSkipped(legs, keys);
    PnlWithDrift(legs);
  }

  // ---------------------------------------------------------------- when nothing drifts

  // The leg closes nothing, or the whole of the entry it pops.
  predicate ClosesInFull(e: Entries, f: Fill) {
    var entry := Closed(e, f);
    entry.None? || entry.value.quantity == f.quantity
  }

  ghost predicate Matched(legs: seq<Fill>) {
    forall k :: 0 <= k < |legs| ==> ClosesInFull(EntriesAfter(legs[..k]), legs[k])
  }

  lemma NoDriftIff(e: Entries, f: Fill)
    requires f.pnl == None && (Closed(e, f).Some? ==> Closed(e, f).value.price != 0.0)
    ensures Drift(e, f) == 0.0 <==> ClosesInFull(e, f)
  {
    var entry := Closed(e, f);
    if entry.Some? && entry.value.quantity != f.quantity {
      NonZeroProduct(entry.value.price, entry.value.quantity - f.quantity);
      NonZeroProduct(entry.value.price, f.quantity - entry.value.quantity);
    }
  }

  lemma NonZeroProduct(a: real, b: real)
    requires a != 0.0 && b != 0.0
    ensures a * b != 0.0
  {
    if b > 0.0 {
      NonZeroTimes(a, b);
    } else {
      NonZeroTimes(a, -b);
      MulSub(0.0, b, a);
    }
  }

  lemma NonZeroTimes(a: real, b: real)
    requires a != 0.0 && b > 0.0
    ensures a * b != 0.0
  {
    if a > 0.0 {
      MulStrict(0.0, a, b);
    } else {
      MulStrict(a, 0.0, b);
    }
  }

  lemma DriftStep(legs: seq<Fill>, k: nat)
    requires k < |legs|
    ensures DriftOf(legs[..k + 1]) == DriftOf(legs[..k]) + Drift(EntriesAfter(legs[..k]), legs[k])
  {
    assert legs[..k + 1][..k] == legs[..k];
  }

  lemma {:induction false} OpenEntriesAreLegs(legs: seq<Fill>)
    ensures forall f :: f in EntriesAfter(legs).longs || f in EntriesAfter(legs).shorts ==> f in legs
  {
    hide EntriesAfter, Enter;
    if legs == [] {
      NothingMoved();
    } else {
      var front, f := legs[..|legs| - 1], legs[|legs| - 1];
      OpenEntriesAreLegs(front);
      assert legs == front + [f];
      LegStep(front, f);
      EnterMembers(EntriesAfter(front), f);
      assert forall g :: g in front || g == f ==> g in front + [f];
    }
  }

  lemma EnterMembers(e: Entries, f: Fill)
    ensures forall g :: g in Enter(e, f).longs ==> g in e.longs || g == f
    ensures forall g :: g in Enter(e, f).shorts ==> g in e.shorts || g == f
  {
  }

  ghost predicate NeverDrifts(legs: seq<Fill>) {
    forall k :: 0 <= k < |legs| ==> Drift(EntriesAfter(legs[..k]), legs[k]) == 0.0
  }

  lemma {:induction false} NoDriftInAll(legs: seq<Fill>, k: nat)
    requires k <= |legs| && NeverDrifts(legs)
    ensures DriftOf(legs[..k]) == 0.0
  {
    hide DriftOf, Drift, EntriesAfter;
    if k == 0 {
      NoLegsNoDrift();
    } else {
      NoDriftInAll(legs, k - 1);
      DriftStep(legs, k - 1);
    }
  }

  lemma MatchedNeverDrifts(legs: seq<Fill>)
    requires Matched(legs) && forall f :: f in legs ==> f.pnl == None
    ensures NeverDrifts(legs)
  {
    hide Drift, EntriesAfter, ClosesInFull;
    forall k | 0 <= k < |legs| ensures Drift(EntriesAfter(legs[..k]), legs[k]) == 0.0 {
      FullCloseNoDrift(EntriesAfter(legs[..k]), legs[k]);
    }
  }

  lemma NoLegsNoDrift()
    ensures DriftOf([]) == 0.0
  {
  }

  lemma FullCloseNoDrift(e: Entries, f: Fill)
    requires f.pnl == None && ClosesInFull(e, f)
    ensures Drift(e, f) == 0.0
  {
  }

  // The books are conserved at every moment exactly when no close drifts.
  lemma ConservedUnlessDrifting(legs: seq<Fill>)
    ensures (forall k :: 0 <= k <= |legs| ==> PnlOf(legs[..k]) == Conserved(legs[..k])) <==> NeverDrifts(legs)
  {
    hide DriftOf, Drift, EntriesAfter, PnlOf, Conserved, NeverDrifts;
    forall k | 0 <= k <= |legs| ensures PnlOf(legs[..k]) == Conserved(legs[..k]) <==> DriftOf(legs[..k]) == 0.0 {
      PnlWithDrift(legs[..k]);
    }
    if NeverDrifts(legs) {
      forall k | 0 <= k <= |legs| ensures DriftOf(legs[..k]) == 0.0 {
        NoDriftInAll(legs, k);
      }
    }
    if forall k :: 0 <= k <= |legs| ==> DriftOf(legs[..k]) == 0.0 {
      SumsShowDrift(legs);
    }
  }

  lemma SumsShowDrift(legs: seq<Fill>)
    requires forall k :: 0 <= k <= |legs| ==> DriftOf(legs[..k]) == 0.0
    ensures NeverDrifts(legs)
  {
    hide DriftOf, Drift, EntriesAfter;
    forall k | 0 <= k < |legs| ensures Drift(EntriesAfter(legs[..k]), legs[k]) == 0.0 {
      DriftStep(legs, k);
      assert DriftOf(legs[..k]) == 0.0 == DriftOf(legs[..k + 1]);
    }
  }

  // With non-zero prices and no reported PnL that is: every close has the quantity of the entry it pops.
  lemma ConservedThroughoutIff(legs: seq<Fill>)
    requires forall f :: f in legs ==> f.price != 0.0 && f.pnl == None
    ensures (forall k :: 0 <= k <= |legs| ==> PnlOf(legs[..k]) == Conserved(legs[..k])) <==> Matched(legs)
  {
    hide Drift, EntriesAfter, ClosesInFull, PnlOf, Conserved, Closed;
    ConservedUnlessDrifting(legs);
    forall k | 0 <= k < |legs|
      ensures Drift(EntriesAfter(legs[..k]), legs[k]) == 0.0 <==> ClosesInFull(EntriesAfter(legs[..k]), legs[k])
    {
      ClosedIsLeg(legs, k);
      NoDriftIff(EntriesAfter(legs[..k]), legs[k]);
    }
  }

  lemma ClosedIsLeg(legs: seq<Fill>, k: nat)
    requires k < |legs|
    ensures var entry := Closed(EntriesAfter(legs[..k]), legs[k]); entry.Some? ==> entry.value in legs
  {
    hide EntriesAfter;
    OpenEntriesAreLegs(legs[..k]);
    assert forall f :: f in legs[..k] ==> f in legs;
  }

  // A flat book has booked or skipped exactly the money its legs brought in, and the drift.
  lemma FlatBookPnl(legs: seq<Fill>, keys: set<Key>)
    requires |PricesOf(legs, Buy)| == |PricesOf(legs, Sell)|
    ensures SumPnl(NewRows(legs, keys)) + SkippedPnl(legs, keys) == MoneyOf(legs) + DriftOf(legs)
  {
    hide NewRows, SumPnl, SkippedPnl, MoneyOf, DriftOf, Prices;
    FifoDrift(legs, keys);
    QueuesClosedForm(legs);
    EntriesAreQueues(legs);
    assert EntriesAfter(legs).longs == [] && EntriesAfter(legs).shorts == [];
  }

  // ---------------------------------------------------------------- equal lots

  // What `lot` units cost at each of the prices, added up.
  function Notional(prices: seq<real>, lot: real): real {
    if prices == [] then 0.0 else Notional(prices[..|prices| - 1], lot) + lot * prices[|prices| - 1]
  }

  lemma NotionalSnoc(prices: seq<real>, price: real, lot: real)
    ensures Notional(prices + [price], lot) == Notional(prices, lot) + lot * price
  {
    assert (prices + [price])[..|prices|] == prices;
  }

  // The same from the prices alone, when every leg has `lot` units.
  function Balance(legs: seq<Fill>, lot: real): real {
    Notional(PricesOf(legs, Sell), lot) - Notional(PricesOf(legs, Buy), lot) + OpenCost(QueuesAfter(legs), lot)
  }

  function OpenCost(q: Queues, lot: real): real {
    Notional(q.longs, lot) - Notional(q.shorts, lot)
  }

  function Cash(f: Fill, lot: real): real {
    if f.side == Sell then lot * f.price else if f.side == Buy then -(lot * f.price) else 0.0
  }

  lemma PricesSnoc(legs: seq<Fill>, f: Fill, side: Side)
    ensures PricesOf(legs + [f], side) ==
      if f.side == side then PricesOf(legs, side) + [f.price] else PricesOf(legs, side)
  {
    assert (legs + [f])[..|legs|] == legs;
  }

  lemma CashStep(legs: seq<Fill>, f: Fill, lot: real)
    ensures Notional(PricesOf(legs + [f], Sell), lot) - Notional(PricesOf(legs + [f], Buy), lot)
         == Notional(PricesOf(legs, Sell), lot) - Notional(PricesOf(legs, Buy), lot) + Cash(f, lot)
  {
    hide PricesOf, Notional;
    PricesSnoc(legs, f, Buy);
    PricesSnoc(legs, f, Sell);
    if f.side == Buy {
      NotionalSnoc(PricesOf(legs, Buy), f.price, lot);
    } else if f.side == Sell {
      NotionalSnoc(PricesOf(legs, Sell), f.price, lot);
    }
  }

  lemma {:induction false} EqualLotsMatch(legs: seq<Fill>, lot: real)
    requires forall f :: f in legs ==> f.quantity == lot
    ensures Matched(legs)
  {
    forall k | 0 <= k < |legs| ensures ClosesInFull(EntriesAfter(legs[..k]), legs[k]) {
      ClosedIsLeg(legs, k);
    }
  }

  lemma {:induction false} WorthOfLots(fills: seq<Fill>, lot: real)
    requires forall f :: f in fills ==> f.quantity == lot
    ensures Worth(fills) == Notional(Prices(fills), lot)
  {
    if fills != [] {
      var n := |fills| - 1;
      WorthOfLots(fills[..n], lot);
      assert Prices(fills)[..n] == Prices(fills[..n]);
      assert fills[n] in fills;
    }
  }

  lemma {:induction false} MoneyOfLots(legs: seq<Fill>, lot: real)
    requires forall f :: f in legs ==> f.quantity == lot
    ensures MoneyOf(legs) == Notional(PricesOf(legs, Sell), lot) - Notional(PricesOf(legs, Buy), lot)
  {
    hide Notional, PricesOf;
    if legs == [] {
      NoNotional(lot);
    } else {
      var n := |legs| - 1;
      MoneyOfLots(legs[..n], lot);
      assert legs == legs[..n] + [legs[n]];
      CashStep(legs[..n], legs[n], lot);
    }
  }

  lemma NoNotional(lot: real)
    ensures PricesOf([], Buy) == [] && PricesOf([], Sell) == [] && Notional([], lot) == 0.0
  {
  }

  // With one lot size and no exchange PnL, what is booked and skipped is the lot times sell prices minus
  // buy prices plus open longs minus open shorts.
  lemma FifoConservation(legs: seq<Fill>, lot: real, keys: set<Key>)
    requires forall f :: f in legs ==> f.quantity == lot && f.pnl == None
    ensures SumPnl(NewRows(legs, keys)) + SkippedPnl(legs, keys) == Balance(legs, lot)
  {
    hide NewRows, SumPnl, SkippedPnl, NeverDrifts, MoneyOf, DriftOf, Prices, Notional, PricesOf, EntriesAfter, Matched, Worth;
    FifoDrift(legs, keys);
    EqualLotsMatch(legs, lot);
    MatchedNeverDrifts(legs);
    NoDriftInAll(legs, |legs|);
    assert legs[..|legs|] == legs;
    OpenEntriesAreLegs(legs);
    EntriesAreQueues(legs);
    WorthOfLots(EntriesAfter(legs).longs, lot);
    WorthOfLots(EntriesAfter(legs).shorts, lot);
    MoneyOfLots(legs, lot);
  }

  // Pairing counts legs, not quantity: a lot of 2 bought at 100 and a lot of 1 sold at 110 leave empty
  // queues with half the position still open, and a drift of 100.
  lemma UnequalLotsHideAPosition()
    ensures var legs := [Fill("S", 1, Buy, 100.0, 2.0, 0.0, None, 1),
                         Fill("S", 2, Sell, 110.0, 1.0, 0.0, None, 2)];
      && QueuesAfter(legs) == Queues([], [])
      && SumPnl(NewRows(legs, {})) == 10.0 && MoneyOf(legs) == -90.0 && DriftOf(legs) == 100.0
  {
    hide NewRows, QueuesAfter, EntriesAfter, SumPnl, SkippedPnl, MoneyOf, DriftOf, DistinctKeys, NoneJournalled;
    var a := Fill("S", 1, Buy, 100.0, 2.0, 0.0, None, 1);
    var b := Fill("S", 2, Sell, 110.0, 1.0, 0.0, None, 2);
    TwoLegs(a, b);
    TwoDistinct(a, b);
    NothingSkipped([a, b], {});
    AllInsertedSkipsNothing([a, b], {});
    FifoDrift([a, b], {});
    EntriesAreQueues([a, b]);
    NoWorth();
  }

  lemma TwoLegs(a: Fill, b: Fill)
    requires a.side == Buy && b.side == Sell
    ensures EntriesAfter([a, b]) == Entries([], []) && QueuesAfter([a, b]) == Queues([], [])
    ensures MoneyOf([a, b]) == Value(b) - Value(a)
    ensures DriftOf([a, b]) == Drift(Entries([a], []), b)
  {
    hide *;
    assert [] + [a] == [a] && [a] + [b] == [a, b];
    NothingMoved();
    LegStep([], a);
    LegStep([a], b);
    TwoEntries(a, b);
    OpensNothing(a);
    EntriesAreQueues([a, b]);
  }

  lemma TwoEntries(a: Fill, b: Fill)
    requires a.side == Buy && b.side == Sell
    ensures Enter(Entries([], []), a) == Entries([a], []) && Enter(Entries([a], []), b) == Entries([], [])
    ensures Prices([]) == [] && Money(a) == -Value(a) && Money(b) == Value(b)
  {
    hide Value;
  }

  lemma NothingMoved()
    ensures EntriesAfter([]) == Entries([], []) && MoneyOf([]) == DriftOf([]) == 0.0
  {
  }

  lemma LegStep(legs: seq<Fill>, f: Fill)
    ensures EntriesAfter(legs + [f]) == Enter(EntriesAfter(legs), f)
    ensures MoneyOf(legs + [f]) == MoneyOf(legs) + Money(f)
    ensures DriftOf(legs + [f]) == DriftOf(legs) + Drift(EntriesAfter(legs), f)
  {
    hide Drift, Money, Enter;
    assert (legs + [f])[..|legs|] == legs;
  }

  lemma OpensNothing(f: Fill)
    ensures Drift(Entries([], []), f) == 0.0
  {
  }

  lemma TwoDistinct(a: Fill, b: Fill)
    requires a.side != b.side
    ensures DistinctKeys([a, b]) && NoneJournalled([a, b], {})
  {
  }
}
