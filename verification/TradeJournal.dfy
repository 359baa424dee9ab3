/**
 * Ingest of exchange fills into the trade journal: fills are grouped by symbol,
 * sorted by time, and paired first-in-first-out; a leg that is already journalled
 * is skipped but still advances the queues.
 */
module TradeJournal {
  import opened Wrappers

  datatype Side = Buy | Sell | OtherSide(name: string)

  // One exchange execution. `pnl` is None when the exchange reports no realized PnL.
  datatype Fill = Fill(symbol: string, orderId: int, side: Side, price: real,
                       quantity: real, fee: real, pnl: Option<real>, timestamp: int)

  datatype Row = Row(orderId: int, symbol: string, side: Side, quantity: real,
                     price: real, fee: real, pnl: real, timestamp: int)

  type Key = (int, Side)

  // Open entry prices of one symbol: `longs` from BUY opens, `shorts` from SELL opens.
  datatype Queues = Queues(longs: seq<real>, shorts: seq<real>)

  // ---------------------------------------------------------------- grouping and sorting

  function LegsOf(fills: seq<Fill>, symbol: string): seq<Fill> {
    if fills == [] then []
    else
      var n := |fills| - 1;
      var front := LegsOf(fills[..n], symbol);
      if fills[n].symbol == symbol then front + [fills[n]] else front
  }

  // Symbols in order of first appearance, the iteration order of the grouping dict.
  function Symbols(fills: seq<Fill>): seq<string> {
    if fills == [] then []
    else
      var n := |fills| - 1;
      var front := Symbols(fills[..n]);
      if fills[n].symbol in front then front else front + [fills[n].symbol]
  }

  function Insert(sorted: seq<Fill>, f: Fill): seq<Fill> {
    if sorted == [] then [f]
    else
      var n := |sorted| - 1;
      if sorted[n].timestamp <= f.timestamp then sorted + [f]
      else Insert(sorted[..n], f) + [sorted[n]]
  }

  // The stable sort by timestamp.
  function StableSort(legs: seq<Fill>): seq<Fill> {
    if legs == [] then [] else Insert(StableSort(legs[..|legs| - 1]), legs[|legs| - 1])
  }

  function Upto(fills: seq<Fill>, t: int): seq<Fill> {
    if fills == [] then []
    else
      var n := |fills| - 1;
      var front := Upto(fills[..n], t);
      if fills[n].timestamp <= t then front + [fills[n]] else front
  }

  function After(fills: seq<Fill>, t: int): seq<Fill> {
    if fills == [] then []
    else
      var n := |fills| - 1;
      var front := After(fills[..n], t);
      if fills[n].timestamp <= t then front else front + [fills[n]]
  }

  lemma {:induction false} InsertKeeps(sorted: seq<Fill>, f: Fill)
    ensures multiset(Insert(sorted, f)) == multiset(sorted) + multiset{f}
  {
    if sorted != [] {
      var n := |sorted| - 1;
      assert sorted == sorted[..n] + [sorted[n]];
      if sorted[n].timestamp > f.timestamp {
        InsertKeeps(sorted[..n], f);
      }
    }
  }

  // Sorting loses and invents no fill, and orders them by time.
  lemma {:induction false} StableSortSorts(legs: seq<Fill>)
    ensures multiset(StableSort(legs)) == multiset(legs)
    ensures forall i, j :: 0 <= i < j < |StableSort(legs)| ==>
      StableSort(legs)[i].timestamp <= StableSort(legs)[j].timestamp
  {
    if legs != [] {
      var n := |legs| - 1;
      assert legs == legs[..n] + [legs[n]];
      StableSortSorts(legs[..n]);
      InsertKeeps(StableSort(legs[..n]), legs[n]);
      InsertSorted(StableSort(legs[..n]), legs[n]);
    }
  }

  function AtTime(fills: seq<Fill>, t: int): seq<Fill> {
    if fills == [] then []
    else
      var n := |fills| - 1;
      var front := AtTime(fills[..n], t);
      if fills[n].timestamp == t then front + [fills[n]] else front
  }

  lemma AtTimeSnoc(fills: seq<Fill>, f: Fill, t: int)
    ensures AtTime(fills + [f], t) == AtTime(fills, t) + if f.timestamp == t then [f] else []
  {
    assert (fills + [f])[..|fills|] == fills;
  }

  lemma {:induction false} InsertAtTime(sorted: seq<Fill>, f: Fill, t: int)
    ensures AtTime(Insert(sorted, f), t) == AtTime(sorted + [f], t)
  {
    AtTimeSnoc(sorted, f, t);
    if sorted == [] {
      assert sorted + [f] == [f];
    } else {
      var n := |sorted| - 1;
      if sorted[n].timestamp > f.timestamp {
        InsertAtTime(sorted[..n], f, t);
        AtTimeSnoc(Insert(sorted[..n], f), sorted[n], t);
        AtTimeSnoc(sorted[..n], f, t);
      }
    }
  }

  // Fills of the same time keep the order in which they were delivered.
  lemma {:induction false} SortIsStable(legs: seq<Fill>, t: int)
    ensures AtTime(StableSort(legs), t) == AtTime(legs, t)
  {
    if legs != [] {
      var n := |legs| - 1;
      SortIsStable(legs[..n], t);
      InsertAtTime(StableSort(legs[..n]), legs[n], t);
      AtTimeSnoc(StableSort(legs[..n]), legs[n], t);
    }
  }

  lemma {:induction false} InsertSorted(sorted: seq<Fill>, f: Fill)
    requires forall i, j :: 0 <= i < j < |sorted| ==> sorted[i].timestamp <= sorted[j].timestamp
    ensures forall i, j :: 0 <= i < j < |Insert(sorted, f)| ==>
      Insert(sorted, f)[i].timestamp <= Insert(sorted, f)[j].timestamp
  {
    if sorted != [] {
      var n := |sorted| - 1;
      if sorted[n].timestamp > f.timestamp {
        InsertSorted(sorted[..n], f);
        InsertKeeps(sorted[..n], f);
        forall g | g in Insert(sorted[..n], f) ensures g.timestamp <= sorted[n].timestamp {
          assert g in multiset(Insert(sorted[..n], f));
        }
      }
    }
  }

  lemma InsertStep(sorted: seq<Fill>, last: Fill, f: Fill)
    ensures Insert(sorted + [last], f) ==
      if last.timestamp <= f.timestamp then sorted + [last] + [f] else Insert(sorted, f) + [last]
  {
    assert (sorted + [last])[..|sorted|] == sorted;
  }

  // Every element of `late` is later than f, so f is inserted into `early`.
  lemma {:induction false} InsertBefore(early: seq<Fill>, late: seq<Fill>, f: Fill)
    requires forall g :: g in late ==> f.timestamp < g.timestamp
    ensures Insert(early + late, f) == Insert(early, f) + late
    decreases |late|
  {
    hide Insert;
    if late == [] {
      assert early + late == early;
    } else {
      var n := |late| - 1;
      var last := late[n];
      assert late == late[..n] + [last];
      InsertBefore(early, late[..n], f);
      InsertStep(early + late[..n], last, f);
      assert early + late == early + late[..n] + [last];
      assert Insert(early, f) + late == Insert(early, f) + late[..n] + [last];
    }
  }

  lemma {:induction false} InsertBehind(early: seq<Fill>, late: seq<Fill>, f: Fill)
    requires forall g :: g in early ==> g.timestamp <= f.timestamp
    ensures Insert(early + late, f) == early + Insert(late, f)
    decreases |late|
  {
    if late == [] {
      assert early + late == early;
    } else {
      var n := |late| - 1;
      assert (early + late)[..|early| + n] == early + late[..n];
      if late[n].timestamp > f.timestamp {
        InsertBehind(early, late[..n], f);
      }
    }
  }

  lemma {:induction false} UptoAfterTimes(fills: seq<Fill>, t: int)
    ensures forall f :: f in Upto(fills, t) ==> f in fills && f.timestamp <= t
    ensures forall f :: f in After(fills, t) ==> f in fills && t < f.timestamp
  {
    if fills != [] {
      UptoAfterTimes(fills[..|fills| - 1], t);
    }
  }

  lemma SortMembers(legs: seq<Fill>)
    ensures forall f :: f in StableSort(legs) <==> f in legs
  {
    StableSortSorts(legs);
    forall f ensures f in StableSort(legs) <==> f in legs {
      assert f in StableSort(legs) <==> f in multiset(StableSort(legs));
      assert f in legs <==> f in multiset(legs);
    }
  }

  // Sorting splits at any time: a time-prefix of the fills sorts to a prefix of the sorted
  // fills, whatever the order in which the exchange delivered them.
  lemma {:induction false} SortSplitsByTime(fills: seq<Fill>, t: int)
    ensures StableSort(fills) == StableSort(Upto(fills, t)) + StableSort(After(fills, t))
  {
    if fills != [] {
      var n := |fills| - 1;
      var early, late := Upto(fills[..n], t), After(fills[..n], t);
      SortSplitsByTime(fills[..n], t);
      UptoAfterTimes(fills[..n], t);
      SortMembers(early);
      SortMembers(late);
      if fills[n].timestamp <= t {
        InsertBefore(StableSort(early), StableSort(late), fills[n]);
        assert Upto(fills, t)[..|early|] == early;
        assert After(fills, t) == late;
      } else {
        InsertBehind(StableSort(early), StableSort(late), fills[n]);
        assert After(fills, t)[..|late|] == late;
        assert Upto(fills, t) == early;
      }
    }
  }

  lemma {:induction false} LegsOfUpto(fills: seq<Fill>, symbol: string, t: int)
    ensures LegsOf(Upto(fills, t), symbol) == Upto(LegsOf(fills, symbol), t)
  {
    if fills != [] {
      var n := |fills| - 1;
      var f := fills[n];
      LegsOfUpto(fills[..n], symbol, t);
      if f.timestamp <= t {
        assert Upto(fills, t)[..|Upto(fills[..n], t)|] == Upto(fills[..n], t);
      } else {
        assert Upto(fills, t) == Upto(fills[..n], t);
      }
      if f.symbol == symbol {
        assert LegsOf(fills, symbol)[..|LegsOf(fills[..n], symbol)|] == LegsOf(fills[..n], symbol);
      } else {
        assert LegsOf(fills, symbol) == LegsOf(fills[..n], symbol);
      }
    }
  }

  lemma {:induction false} LegsOfMembers(fills: seq<Fill>, symbol: string)
    ensures forall f :: f in LegsOf(fills, symbol) <==> f in fills && f.symbol == symbol
  {
    if fills != [] {
      var n := |fills| - 1;
      LegsOfMembers(fills[..n], symbol);
      assert fills == fills[..n] + [fills[n]];
    }
  }

  lemma {:induction false} SymbolsMembers(fills: seq<Fill>)
    ensures forall f :: f in fills ==> f.symbol in Symbols(fills)
    ensures forall s :: s in Symbols(fills) ==> exists f :: f in fills && f.symbol == s
    ensures forall i, j :: 0 <= i < j < |Symbols(fills)| ==> Symbols(fills)[i] != Symbols(fills)[j]
  {
    if fills != [] {
      var n := |fills| - 1;
      SymbolsMembers(fills[..n]);
      assert fills == fills[..n] + [fills[n]];
      assert forall f :: f in fills[..n] ==> f in fills;
    }
  }

  // Symbols come in the order in which they first appear: later fills only add behind.
  lemma {:induction false} SymbolsByArrival(fills: seq<Fill>, k: nat)
    requires k <= |fills|
    ensures Symbols(fills[..k]) <= Symbols(fills)
  {
    if k == |fills| {
      assert fills[..k] == fills;
    } else {
      var n := |fills| - 1;
      SymbolsByArrival(fills[..n], k);
      assert fills[..n][..k] == fills[..k];
    }
  }

  // ---------------------------------------------------------------- pairing one leg

  function Advance(q: Queues, f: Fill): Queues {
    match f.side
    case Buy =>
      if q.shorts != [] then q.(shorts := q.shorts[1..]) else q.(longs := q.longs + [f.price])
    case Sell =>
      if q.longs != [] then q.(longs := q.longs[1..]) else q.(shorts := q.shorts + [f.price])
    case OtherSide(_) => q
  }

  // The PnL a leg realizes against the queue head: an exchange figure wins over FIFO, and an
  // opening leg realizes nothing.
  function LegPnl(q: Queues, f: Fill): real {
    if f.side == Buy && q.shorts != [] then
      if f.pnl.Some? then f.pnl.value else (q.shorts[0] - f.price) * f.quantity
    else if f.side == Sell && q.longs != [] then
      if f.pnl.Some? then f.pnl.value else (f.price - q.longs[0]) * f.quantity
    else 0.0
  }

  function QueuesAfter(legs: seq<Fill>): Queues {
    if legs == [] then Queues([], [])
    else Advance(QueuesAfter(legs[..|legs| - 1]), legs[|legs| - 1])
  }

  function RowFor(q: Queues, f: Fill): Row {
    Row(f.orderId, f.symbol, f.side, f.quantity, f.price, f.fee, LegPnl(q, f), f.timestamp)
  }

  function Keys(rows: seq<Row>): set<Key> {
    if rows == [] then {}
    else
      var n := |rows| - 1;
      Keys(rows[..n]) + {(rows[n].orderId, rows[n].side)}
  }

  lemma KeysSnoc(rows: seq<Row>, r: Row)
    ensures Keys(rows + [r]) == Keys(rows) + {(r.orderId, r.side)}
  {
    assert (rows + [r])[..|rows|] == rows;
  }

  lemma {:induction false} KeysOfConcat(a: seq<Row>, b: seq<Row>)
    ensures Keys(a + b) == Keys(a) + Keys(b)
    decreases |b|
  {
    if b == [] {
      assert a + b == a;
    } else {
      var n := |b| - 1;
      KeysOfConcat(a, b[..n]);
      assert a + b == a + b[..n] + [b[n]];
      KeysSnoc(a + b[..n], b[n]);
    }
  }

  lemma {:induction false} KeysMembers(rows: seq<Row>, k: Key)
    ensures k in Keys(rows) <==> exists i :: 0 <= i < |rows| && (rows[i].orderId, rows[i].side) == k
  {
    if rows != [] {
      var n := |rows| - 1;
      KeysMembers(rows[..n], k);
      if i :| 0 <= i < n && (rows[i].orderId, rows[i].side) == k {
        assert (rows[..n][i].orderId, rows[..n][i].side) == k;
      }
    }
  }

  // The repository answers False for order id 0 without looking.
  predicate Journalled(keys: set<Key>, f: Fill) {
    f.orderId != 0 && (f.orderId, f.side) in keys
  }

  // Rows a symbol's sorted legs add to a journal whose keys are `keys`.
  function NewRows(legs: seq<Fill>, keys: set<Key>): seq<Row> {
    if legs == [] then []
    else
      var n := |legs| - 1;
      var front := NewRows(legs[..n], keys);
      if Journalled(keys + Keys(front), legs[n]) then front
      else front + [RowFor(QueuesAfter(legs[..n]), legs[n])]
  }

  lemma NewRowsSnoc(legs: seq<Fill>, f: Fill, keys: set<Key>)
    ensures NewRows(legs + [f], keys) == NewRows(legs, keys) +
      (if Journalled(keys + Keys(NewRows(legs, keys)), f) then [] else [RowFor(QueuesAfter(legs), f)])
  {
    assert (legs + [f])[..|legs|] == legs;
  }

  // Every leg with a real order id is journalled once its own rows are.
  lemma {:induction false} IngestedAreJournalled(legs: seq<Fill>, keys: set<Key>)
    ensures forall f :: f in legs && f.orderId != 0 ==>
      (f.orderId, f.side) in keys + Keys(NewRows(legs, keys))
    ensures forall r :: r in NewRows(legs, keys) ==>
      exists f :: f in legs && r.orderId == f.orderId && r.side == f.side && r.symbol == f.symbol
  {
    if legs != [] {
      var n := |legs| - 1;
      IngestedAreJournalled(legs[..n], keys);
      assert legs == legs[..n] + [legs[n]];
      var front := NewRows(legs[..n], keys);
      if !Journalled(keys + Keys(front), legs[n]) {
        var row := RowFor(QueuesAfter(legs[..n]), legs[n]);
        KeysSnoc(front, row);
      }
      assert legs[n] in legs;
    }
  }

  // The row holds the leg's id, symbol, side, quantity, price, fee and time.
  predicate Records(r: Row, f: Fill) {
    && r.orderId == f.orderId && r.symbol == f.symbol && r.side == f.side && r.quantity == f.quantity
    && r.price == f.price && r.fee == f.fee && r.timestamp == f.timestamp
  }

  // The rows record the legs at these places, in order.
  ghost predicate RecordsAt(rows: seq<Row>, legs: seq<Fill>, at: seq<nat>) {
    && |at| == |rows|
    && (forall i, j :: 0 <= i < j < |at| ==> at[i] < at[j])
    && (forall i :: 0 <= i < |at| ==> at[i] < |legs| && Records(rows[i], legs[at[i]]))
  }

  // A real id was journalled before under its side, or an earlier leg has it.
  ghost predicate Known(legs: seq<Fill>, keys: set<Key>, k: nat)
    requires k < |legs|
  {
    && legs[k].orderId != 0
    && ((legs[k].orderId, legs[k].side) in keys
        || exists j :: 0 <= j < k && legs[j].orderId == legs[k].orderId && legs[j].side == legs[k].side)
  }

  ghost predicate AllButKnown(legs: seq<Fill>, keys: set<Key>, at: seq<nat>) {
    forall k: nat :: k < |legs| ==> (k in at <==> !Known(legs, keys, k))
  }

  lemma JournalledIffKnown(legs: seq<Fill>, keys: set<Key>, k: nat)
    requires k < |legs|
    ensures Journalled(keys + Keys(NewRows(legs[..k], keys)), legs[k]) <==> Known(legs, keys, k)
  {
    hide NewRows, Keys;
    var rows := NewRows(legs[..k], keys);
    IngestedAreJournalled(legs[..k], keys);
    KeysMembers(rows, (legs[k].orderId, legs[k].side));
    if j :| 0 <= j < k && legs[j].orderId == legs[k].orderId && legs[j].side == legs[k].side {
      assert legs[j] in legs[..k];
    }
    if f :| f in legs[..k] && f.orderId == legs[k].orderId && f.side == legs[k].side {
      var j :| 0 <= j < k && legs[..k][j] == f;
    }
  }

  // The new rows record, in order, exactly the legs not known before.
  lemma {:induction false} RowsAreLegs(legs: seq<Fill>, keys: set<Key>) returns (at: seq<nat>)
    ensures RecordsAt(NewRows(legs, keys), legs, at) && AllButKnown(legs, keys, at)
    ensures forall i :: 0 <= i < |at| ==>
      NewRows(legs, keys)[i].pnl == LegPnl(QueuesAfter(legs[..at[i]]), legs[at[i]])
  {
    hide NewRows, LegPnl, QueuesAfter, Known, Journalled, Keys;
    if legs == [] {
      at := [];
      NoNewRows(keys);
    } else {
      var n := |legs| - 1;
      var front := legs[..n];
      at := RowsAreLegs(front, keys);
      forall k: nat | k < n ensures front[..k] == legs[..k] && (Known(front, keys, k) <==> Known(legs, keys, k)) {
        KnownBefore(legs, keys, k);
      }
      assert legs == front + [legs[n]];
      NewRowsSnoc(front, legs[n], keys);
      JournalledIffKnown(legs, keys, n);
      if !Known(legs, keys, n) {
        at := at + [n];
        RowOf(QueuesAfter(front), legs[n]);
      }
    }
  }

  lemma NoNewRows(keys: set<Key>)
    ensures NewRows([], keys) == []
  {
  }

  lemma RowOf(q: Queues, f: Fill)
    ensures Records(RowFor(q, f), f) && RowFor(q, f).pnl == LegPnl(q, f)
  {
  }

  lemma KnownBefore(legs: seq<Fill>, keys: set<Key>, k: nat)
    requires k < |legs| - 1
    ensures legs[..|legs| - 1][..k] == legs[..k]
    ensures Known(legs[..|legs| - 1], keys, k) <==> Known(legs, keys, k)
  {
    var front := legs[..|legs| - 1];
    assert forall j :: 0 <= j <= k ==> front[j] == legs[j];
  }

  lemma TakeOneMore(legs: seq<Fill>, i: nat, keys: set<Key>)
    requires i < |legs|
    ensures QueuesAfter(legs[..i + 1]) == Advance(QueuesAfter(legs[..i]), legs[i])
    ensures var front := NewRows(legs[..i], keys);
      NewRows(legs[..i + 1], keys) == if Journalled(keys + Keys(front), legs[i]) then front
        else front + [RowFor(QueuesAfter(legs[..i]), legs[i])]
  {
    assert legs[..i + 1][..i] == legs[..i];
  }

  function Legs(fills: seq<Fill>, symbol: string): seq<Fill> {
    StableSort(LegsOf(fills, symbol))
  }

  lemma LegsMembers(fills: seq<Fill>, symbol: string)
    ensures forall f :: f in Legs(fills, symbol) <==> f in fills && f.symbol == symbol
  {
    SortMembers(LegsOf(fills, symbol));
    LegsOfMembers(fills, symbol);
  }

  function IngestSymbols(rows: seq<Row>, fills: seq<Fill>, symbols: seq<string>): seq<Row> {
    if symbols == [] then rows
    else
      var n := |symbols| - 1;
      var front := IngestSymbols(rows, fills, symbols[..n]);
      front + NewRows(Legs(fills, symbols[n]), Keys(front))
  }

  function Ingest(rows: seq<Row>, fills: seq<Fill>): seq<Row> {
    IngestSymbols(rows, fills, Symbols(fills))
  }

  ghost predicate RecordsOne(r: Row, fills: seq<Fill>) {
    exists f :: f in fills && Records(r, f)
  }

  // Ingesting keeps every row, and each row it adds records a delivered fill.
  ghost predicate AddsFills(rows: seq<Row>, more: seq<Row>, fills: seq<Fill>) {
    rows <= more && forall k :: |rows| <= k < |more| ==> RecordsOne(more[k], fills)
  }

  lemma AddedRecordsLegs(front: seq<Row>, legs: seq<Fill>, keys: set<Key>, fills: seq<Fill>)
    requires forall f :: f in legs ==> f in fills
    ensures AddsFills(front, front + NewRows(legs, keys), fills)
  {
    hide NewRows, Records, Known, Journalled, LegPnl, QueuesAfter;
    var at := RowsAreLegs(legs, keys);
    var more := NewRows(legs, keys);
    forall k | |front| <= k < |front + more| ensures RecordsOne((front + more)[k], fills) {
      var i := k - |front|;
      assert legs[at[i]] in fills && Records(more[i], legs[at[i]]);
    }
  }

  lemma AddsBoth(rows: seq<Row>, front: seq<Row>, more: seq<Row>, fills: seq<Fill>)
    requires AddsFills(rows, front, fills) && AddsFills(front, more, fills)
    ensures AddsFills(rows, more, fills)
  {
    hide RecordsOne;
    forall k | |rows| <= k < |more| ensures RecordsOne(more[k], fills) {
      if k < |front| {
        assert more[k] == front[k];
      }
    }
  }

  lemma {:induction false} IngestAddsFills(rows: seq<Row>, fills: seq<Fill>, symbols: seq<string>)
    ensures AddsFills(rows, IngestSymbols(rows, fills, symbols), fills)
  {
    hide NewRows, Legs, Keys;
    if symbols != [] {
      var n := |symbols| - 1;
      IngestAddsFills(rows, fills, symbols[..n]);
      var front, legs := IngestSymbols(rows, fills, symbols[..n]), Legs(fills, symbols[n]);
      LegsMembers(fills, symbols[n]);
      AddedRecordsLegs(front, legs, Keys(front), fills);
      AddsBoth(rows, front, front + NewRows(legs, Keys(front)), fills);
    }
  }

  function RowsOf(rows: seq<Row>, symbol: string): seq<Row> {
    if rows == [] then []
    else
      var n := |rows| - 1;
      var front := RowsOf(rows[..n], symbol);
      if rows[n].symbol == symbol then front + [rows[n]] else front
  }

  // ---------------------------------------------------------------- the ingest loops

  type Groups = map<string, seq<Fill>>

  // Symbols in arrival order, and the fills of each.
  ghost predicate Grouped(fills: seq<Fill>, order: seq<string>, bySymbol: Groups) {
    && order == Symbols(fills)
    && (forall s :: s in bySymbol <==> s in order)
    && (forall s :: LegsOf(fills, s) == if s in bySymbol then bySymbol[s] else [])
  }

  method GroupBySymbol(fills: seq<Fill>) returns (order: seq<string>, bySymbol: Groups)
    ensures order == Symbols(fills)
    ensures forall s :: s in bySymbol <==> s in order
    ensures forall s :: s in bySymbol ==> bySymbol[s] == LegsOf(fills, s)
  {
    hide Symbols, LegsOf, Grouped;
    NothingGrouped();
    order, bySymbol := [], map[];
    for i := 0 to |fills|
      invariant Grouped(fills[..i], order, bySymbol)
    {
      var f := fills[i];
      GroupStep(fills, i, order, bySymbol);
      assert [] + [f] == [f] && bySymbol[f.symbol := []][f.symbol := [f]] == bySymbol[f.symbol := [f]];
      if f.symbol !in bySymbol {
        order := order + [f.symbol];
        bySymbol := bySymbol[f.symbol := []];
      }
      bySymbol := bySymbol[f.symbol := bySymbol[f.symbol] + [f]];
    }
    assert fills[..|fills|] == fills;
    AllGrouped(fills, order, bySymbol);
  }

  lemma NothingGrouped()
    ensures Grouped([], [], map[])
  {
  }

  lemma AllGrouped(fills: seq<Fill>, order: seq<string>, bySymbol: Groups)
    requires Grouped(fills, order, bySymbol)
    ensures order == Symbols(fills) && forall s :: s in bySymbol <==> s in order
    ensures forall s :: s in bySymbol ==> bySymbol[s] == LegsOf(fills, s)
  {
    hide Symbols, LegsOf;
  }

  lemma GroupStep(fills: seq<Fill>, i: nat, order: seq<string>, bySymbol: Groups)
    requires i < |fills| && Grouped(fills[..i], order, bySymbol)
    ensures var f := fills[i];
      if f.symbol in bySymbol then Grouped(fills[..i + 1], order, bySymbol[f.symbol := bySymbol[f.symbol] + [f]])
      else Grouped(fills[..i + 1], order + [f.symbol], bySymbol[f.symbol := [f]])
  {
    hide Symbols, LegsOf;
    var f := fills[i];
    FillStep(fills, i);
    forall s ensures LegsOf(fills[..i + 1], s) == LegsOf(fills[..i], s) + (if s == f.symbol then [f] else []) {
      LegStepOf(fills, i, s);
    }
  }

  lemma FillStep(fills: seq<Fill>, i: nat)
    requires i < |fills|
    ensures var f, front := fills[i], Symbols(fills[..i]);
      Symbols(fills[..i + 1]) == if f.symbol in front then front else front + [f.symbol]
  {
    assert fills[..i + 1][..i] == fills[..i];
  }

  lemma LegStepOf(fills: seq<Fill>, i: nat, s: string)
    requires i < |fills|
    ensures LegsOf(fills[..i + 1], s) == LegsOf(fills[..i], s) + (if s == fills[i].symbol then [fills[i]] else [])
  {
    assert fills[..i + 1][..i] == fills[..i];
  }

  class Journal {
    var rows: seq<Row>

    constructor ()
      ensures rows == []
    {
      rows := [];
    }

    method ExistsForOrder(orderId: int, side: Side) returns (found: bool)
      ensures found <==> orderId != 0 && (orderId, side) in Keys(rows)
    {
      if orderId == 0 {
        return false;
      }
      KeysMembers(rows, (orderId, side));
      found := exists i :: 0 <= i < |rows| && (rows[i].orderId, rows[i].side) == (orderId, side);
    }

    // An already journalled leg only moves the queues.
    static method SkipLeg(leg: Fill, longs: seq<real>, shorts: seq<real>)
      returns (openLongs: seq<real>, openShorts: seq<real>)
      ensures Queues(openLongs, openShorts) == Advance(Queues(longs, shorts), leg)
    {
      openLongs, openShorts := longs, shorts;
      if leg.side == Buy {
        if openShorts != [] { openShorts := openShorts[1..]; }
        else { openLongs := openLongs + [leg.price]; }
      } else if leg.side == Sell {
        if openLongs != [] { openLongs := openLongs[1..]; }
        else { openShorts := openShorts + [leg.price]; }
      }
    }

    static method PairLeg(leg: Fill, longs: seq<real>, shorts: seq<real>)
      returns (openLongs: seq<real>, openShorts: seq<real>, pnl: real)
      ensures Queues(openLongs, openShorts) == Advance(Queues(longs, shorts), leg)
      ensures pnl == LegPnl(Queues(longs, shorts), leg)
    {
      openLongs, openShorts, pnl := longs, shorts, 0.0;
      if leg.side == Buy {
        if openShorts != [] {
          var entry := openShorts[0];
          openShorts := openShorts[1..];
          pnl := if leg.pnl.Some? then leg.pnl.value else (entry - leg.price) * leg.quantity;
        } else {
          openLongs := openLongs + [leg.price];
        }
      } else if leg.side == Sell {
        if openLongs != [] {
          var entry := openLongs[0];
          openLongs := openLongs[1..];
          pnl := if leg.pnl.Some? then leg.pnl.value else (leg.price - entry) * leg.quantity;
        } else {
          openShorts := openShorts + [leg.price];
        }
      }
    }

    // One symbol's sorted legs.
    method IngestLegs(legs: seq<Fill>) returns (inserted: nat)
      modifies this
      ensures rows == old(rows) + NewRows(legs, Keys(old(rows)))
      ensures inserted == |rows| - |old(rows)|
      ensures exists at :: RecordsAt(rows[|old(rows)|..], legs, at) && AllButKnown(legs, Keys(old(rows)), at)
    {
      hide Keys, LegPnl, Advance, RecordsAt, AllButKnown;
      inserted := 0;
      var openLongs: seq<real>, openShorts: seq<real> := [], [];
      ghost var before := rows;
      for i := 0 to |legs|
        invariant Queues(openLongs, openShorts) == QueuesAfter(legs[..i])
        invariant rows == before + NewRows(legs[..i], Keys(before))
        invariant inserted == |rows| - |before|
      {
        var leg := legs[i];
        KeysOfConcat(before, NewRows(legs[..i], Keys(before)));
        TakeOneMore(legs, i, Keys(before));
        var seen := ExistsForOrder(leg.orderId, leg.side);
        if seen {
          openLongs, openShorts := SkipLeg(leg, openLongs, openShorts);
        } else {
          var pnl;
          openLongs, openShorts, pnl := PairLeg(leg, openLongs, openShorts);
          rows := rows + [Row(leg.orderId, leg.symbol, leg.side, leg.quantity, leg.price,
                              leg.fee, pnl, leg.timestamp)];
          inserted := inserted + 1;
        }
      }
      assert legs[..|legs|] == legs;
      ghost var at := RowsAreLegs(legs, Keys(before));
      assert rows[|before|..] == NewRows(legs, Keys(before));
    }

    // Ingests symbol by symbol.
    method IngestExchangeTrades(fills: seq<Fill>) returns (inserted: nat)
      modifies this
      ensures rows == Ingest(old(rows), fills)
      ensures inserted == |rows| - |old(rows)|
      ensures AddsFills(old(rows), rows, fills)
    {
      hide Symbols, LegsOf, StableSort, NewRows, Keys, AddsFills, RecordsAt, AllButKnown;
      var order, bySymbol := GroupBySymbol(fills);
      inserted := 0;
      ghost var before := rows;
      for i := 0 to |order|
        invariant rows == IngestSymbols(before, fills, order[..i])
        invariant inserted == |rows| - |before|
      {
        assert order[..i + 1][..i] == order[..i];
        assert order[i] in bySymbol;
        var count := IngestLegs(StableSort(bySymbol[order[i]]));
        inserted := inserted + count;
      }
      assert order[..|order|] == order;
      IngestAddsFills(before, fills, order);
    }
  }
}
