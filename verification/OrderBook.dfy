/** The order-book cache: versioned snapshots that survive late, repeated and reordered delivery. */
module OrderBook {
  import opened Wrappers

  // A version field as it arrives: missing, an integer, or something that does not parse as one.
  datatype Field = Missing | Number(value: int) | Malformed

  // Rows are price, size and possibly more.
  datatype Item = Item(symbol: string, bids: seq<seq<real>>, asks: seq<seq<real>>, seqNo: Field, updateId: Field)

  datatype Book = Book(bids: seq<(real, real)>, asks: seq<(real, real)>, timestamp: int, seqNo: Field, updateId: Field)

  // One item as delivered, with the timestamp of its message.
  datatype Delivery = Delivery(item: Item, timestamp: int)

  // Rows that are too short are dropped.
  function Levels(rows: seq<seq<real>>): seq<(real, real)> {
    if rows == [] then []
    else
      var front := Levels(rows[..|rows| - 1]);
      var row := rows[|rows| - 1];
      if |row| >= 2 then front + [(row[0], row[1])] else front
  }

  function BookOf(d: Delivery): Book {
    Book(Levels(d.item.bids), Levels(d.item.asks), d.timestamp, d.item.seqNo, d.item.updateId)
  }

  // An update that does not parse as a version is taken as fresh.
  predicate Stale(item: Item, prev: Book) {
    var bothSeq := item.seqNo != Missing && prev.seqNo != Missing;
    var bothUpdate := item.updateId != Missing && prev.updateId != Missing;
    if bothSeq && (item.seqNo.Malformed? || prev.seqNo.Malformed?) then false
    else if bothSeq && item.seqNo.value < prev.seqNo.value then true
    else if !bothUpdate || item.updateId.Malformed? || prev.updateId.Malformed? then false
    else item.updateId.value <= prev.updateId.value && (!bothSeq || item.seqNo.value <= prev.seqNo.value)
  }

  // The book kept for one symbol after a list of deliveries.
  function Kept(deliveries: seq<Delivery>, symbol: string): Option<Book> {
    if deliveries == [] then None
    else
      var before := Kept(deliveries[..|deliveries| - 1], symbol);
      var d := deliveries[|deliveries| - 1];
      if d.item.symbol != symbol || (before.Some? && Stale(d.item, before.value)) then before
      else Some(BookOf(d))
  }

  lemma KeptSnoc(deliveries: seq<Delivery>, d: Delivery, symbol: string)
    ensures var before := Kept(deliveries, symbol);
      Kept(deliveries + [d], symbol) ==
      if d.item.symbol != symbol || (before.Some? && Stale(d.item, before.value)) then before else Some(BookOf(d))
  {
    assert (deliveries + [d])[..|deliveries|] == deliveries;
  }

  function Delivered(items: seq<Item>, timestamp: int): (r: seq<Delivery>)
    ensures |r| == |items| && forall i :: 0 <= i < |items| ==> r[i] == Delivery(items[i], timestamp)
  {
    if items == [] then []
    else Delivered(items[..|items| - 1], timestamp) + [Delivery(items[|items| - 1], timestamp)]
  }

  class BookCache {
    var books: map<string, Book>
    ghost var history: seq<Delivery>

    // Every named symbol has the book kept from everything delivered so far.
    ghost predicate Valid()
      reads this
    {
      forall s: string :: (if s in books then Some(books[s]) else None) == if s == "" then None else Kept(history, s)
    }

    constructor ()
      ensures Valid() && books == map[] && history == []
    {
      books, history := map[], [];
    }

    // A message: items without a symbol are skipped, stale ones are ignored, the others replace the book.
    method HandleBookTicker(items: seq<Item>, timestamp: int)
      requires Valid()
      modifies this
      ensures Valid() && history == old(history) + Delivered(items, timestamp)
    {
      hide Stale, Kept, BookOf, Delivered, ParsedFrom;
      NothingDelivered(timestamp);
      for i := 0 to |items|
        invariant Valid() && history == old(history) + Delivered(items[..i], timestamp)
      {
        var item := items[i];
        ghost var d := Delivery(item, timestamp);
        ghost var before := history;
        DeliveredSnoc(items, timestamp, i);
        forall s ensures var kept := Kept(before, s);
          Kept(before + [d], s) ==
          if item.symbol != s || (kept.Some? && Stale(item, kept.value)) then kept else Some(BookOf(d)) {
          KeptSnoc(before, d, s);
        }
        history := history + [d];
        if item.symbol != "" {
          if !(item.symbol in books && Stale(item, books[item.symbol])) {
            var bids := ParseLevels(item.bids);
            var asks := ParseLevels(item.asks);
            BookIs(d);
            books := books[item.symbol := Book(bids, asks, timestamp, item.seqNo, item.updateId)];
          }
        }
      }
      assert items[..|items|] == items;
    }
  }

  // The levels are price and size of the rows at these places: in order, all that have both.
  ghost predicate LevelsAt(levels: seq<(real, real)>, rows: seq<seq<real>>, at: seq<nat>) {
    && |at| == |levels|
    && (forall i, j :: 0 <= i < j < |at| ==> at[i] < at[j])
    && (forall k: nat :: k < |rows| && |rows[k]| >= 2 ==> k in at)
    && (forall i :: 0 <= i < |at| ==> at[i] < |rows| && |rows[at[i]]| >= 2 && levels[i] == (rows[at[i]][0], rows[at[i]][1]))
  }

  ghost predicate ParsedFrom(levels: seq<(real, real)>, rows: seq<seq<real>>) {
    exists at :: LevelsAt(levels, rows, at)
  }

  lemma {:induction false} LevelsAreRows(rows: seq<seq<real>>)
    ensures ParsedFrom(Levels(rows), rows)
  {
    hide LevelsAt;
    if rows == [] {
      NoRows();
    } else {
      var n := |rows| - 1;
      LevelsAreRows(rows[..n]);
      var at :| LevelsAt(Levels(rows[..n]), rows[..n], at);
      if |rows[n]| >= 2 {
        RowTaken(Levels(rows[..n]), rows[..n], rows[n], at);
      } else {
        RowDropped(Levels(rows[..n]), rows[..n], rows[n], at);
      }
      assert rows == rows[..n] + [rows[n]];
    }
  }

  lemma NoRows()
    ensures LevelsAt(Levels([]), [], [])
  {
  }

  lemma RowTaken(levels: seq<(real, real)>, rows: seq<seq<real>>, row: seq<real>, at: seq<nat>)
    requires LevelsAt(levels, rows, at) && |row| >= 2
    ensures LevelsAt(levels + [(row[0], row[1])], rows + [row], at + [|rows|])
  {
    var all, more := rows + [row], at + [|rows|];
    forall k: nat | k < |all| && |all[k]| >= 2 ensures k in more {
      if k < |rows| {
        assert all[k] == rows[k] && k in at;
      } else {
        assert more[|at|] == k;
      }
    }
  }

  lemma RowDropped(levels: seq<(real, real)>, rows: seq<seq<real>>, row: seq<real>, at: seq<nat>)
    requires LevelsAt(levels, rows, at) && |row| < 2
    ensures LevelsAt(levels, rows + [row], at)
  {
    var all := rows + [row];
    forall k: nat | k < |all| && |all[k]| >= 2 ensures k in at {
      assert all[k] == rows[k];
    }
  }

  method ParseLevels(rows: seq<seq<real>>) returns (levels: seq<(real, real)>)
    ensures levels == Levels(rows)
    ensures ParsedFrom(levels, rows)
  {
    hide ParsedFrom;
    LevelsAreRows(rows);
    levels := [];
    for i := 0 to |rows|
      invariant levels == Levels(rows[..i])
    {
      assert rows[..i + 1][..i] == rows[..i];
      if |rows[i]| >= 2 {
        levels := levels + [(rows[i][0], rows[i][1])];
      }
    }
    assert rows[..|rows|] == rows;
  }

  lemma NothingDelivered(timestamp: int)
    ensures Delivered([], timestamp) == []
  {
  }

  lemma DeliveredSnoc(items: seq<Item>, timestamp: int, i: nat)
    requires i < |items|
    ensures Delivered(items[..i + 1], timestamp) == Delivered(items[..i], timestamp) + [Delivery(items[i], timestamp)]
  {
    assert items[..i + 1][..i] == items[..i];
  }

  lemma BookIs(d: Delivery)
    ensures BookOf(d) == Book(Levels(d.item.bids), Levels(d.item.asks), d.timestamp, d.item.seqNo, d.item.updateId)
  {
  }

  // ---------------------------------------------------------------- versions

  // Versions are compared by seq first and update id second; a field no update carries counts as zero.
  function Ranked(f: Field): int {
    if f.Number? then f.value else 0
  }

  predicate AtMost(s1: Field, u1: Field, s2: Field, u2: Field) {
    Ranked(s1) < Ranked(s2) || (Ranked(s1) == Ranked(s2) && Ranked(u1) <= Ranked(u2))
  }

  // All updates of the symbol carry the same version fields, and those parse.
  predicate Carries(f: Field, present: bool) {
    if present then f.Number? else f.Missing?
  }

  ghost predicate Uniform(deliveries: seq<Delivery>, symbol: string, hasSeq: bool, hasUpdate: bool) {
    forall d :: d in deliveries && d.item.symbol == symbol ==>
      Carries(d.item.seqNo, hasSeq) && Carries(d.item.updateId, hasUpdate)
  }

  ghost predicate Greatest(d: Delivery, deliveries: seq<Delivery>) {
    && d in deliveries
    && forall e :: e in deliveries && e.item.symbol == d.item.symbol ==>
        AtMost(e.item.seqNo, e.item.updateId, d.item.seqNo, d.item.updateId)
  }

  // With both fields present, an update is stale exactly when its (seq, update id) is not newer.
  lemma StaleIffNotNewer(item: Item, prev: Book)
    requires item.seqNo.Number? && item.updateId.Number? && prev.seqNo.Number? && prev.updateId.Number?
    ensures Stale(item, prev) <==> AtMost(item.seqNo, item.updateId, prev.seqNo, prev.updateId)
  {
  }

  // Otherwise: a missing field does not decide, a lower seq does whatever the update id, and a compared field that
  // does not parse makes the update fresh.
  lemma StaleElsewhere(item: Item, prev: Book)
    ensures item.seqNo.Number? && prev.seqNo.Number? && item.seqNo.value < prev.seqNo.value ==> Stale(item, prev)
    ensures (item.seqNo.Missing? || prev.seqNo.Missing?) && item.updateId.Number? && prev.updateId.Number? ==>
      (Stale(item, prev) <==> item.updateId.value <= prev.updateId.value)
    ensures (item.updateId.Missing? || prev.updateId.Missing?) && item.seqNo.Number? && prev.seqNo.Number? ==>
      (Stale(item, prev) <==> item.seqNo.value < prev.seqNo.value)
    ensures !item.seqNo.Missing? && !prev.seqNo.Missing? && (item.seqNo.Malformed? || prev.seqNo.Malformed?) ==>
      !Stale(item, prev)
    ensures (item.updateId.Malformed? || prev.updateId.Malformed?) && Stale(item, prev) ==>
      item.seqNo.Number? && prev.seqNo.Number? && item.seqNo.value < prev.seqNo.value
    ensures (item.seqNo.Missing? || prev.seqNo.Missing?) && (item.updateId.Missing? || prev.updateId.Missing?) ==>
      !Stale(item, prev)
  {
  }

  // The kept book is one that was delivered, and no delivered version is greater.
  lemma {:induction false} KeptIsGreatest(deliveries: seq<Delivery>, symbol: string, hasSeq: bool, hasUpdate: bool)
    requires Uniform(deliveries, symbol, hasSeq, hasUpdate)
    ensures Kept(deliveries, symbol).None? <==> forall d :: d in deliveries ==> d.item.symbol != symbol
    ensures Kept(deliveries, symbol).Some? ==>
      exists d :: Greatest(d, deliveries) && d.item.symbol == symbol && Kept(deliveries, symbol).value == BookOf(d)
        && Shows(BookOf(d), d.item) && BookOf(d).timestamp == d.timestamp
  {
    if deliveries != [] {
      var n := |deliveries| - 1;
      var front, last := deliveries[..n], deliveries[n];
      assert deliveries == front + [last];
      KeptIsGreatest(front, symbol, hasSeq, hasUpdate);
      KeptSnoc(front, last, symbol);
      if Kept(front, symbol).Some? {
        var d :| Greatest(d, front) && d.item.symbol == symbol && Kept(front, symbol).value == BookOf(d);
        if last.item.symbol == symbol && !Stale(last.item, BookOf(d)) {
          FreshIsGreater(last.item, d, hasSeq, hasUpdate);
          NewGreatest(front, d, last);
        } else {
          if last.item.symbol == symbol {
            StaleIsLess(last.item, d, hasSeq, hasUpdate);
          }
          assert Greatest(d, deliveries);
        }
      } else if last.item.symbol == symbol {
        assert Greatest(last, deliveries);
      }
    }
  }

  lemma FreshIsGreater(item: Item, d: Delivery, hasSeq: bool, hasUpdate: bool)
    requires Carries(item.seqNo, hasSeq) && Carries(item.updateId, hasUpdate)
    requires Carries(d.item.seqNo, hasSeq) && Carries(d.item.updateId, hasUpdate)
    requires !Stale(item, BookOf(d))
    ensures AtMost(d.item.seqNo, d.item.updateId, item.seqNo, item.updateId)
  {
  }

  lemma StaleIsLess(item: Item, d: Delivery, hasSeq: bool, hasUpdate: bool)
    requires Carries(item.seqNo, hasSeq) && Carries(item.updateId, hasUpdate)
    requires Carries(d.item.seqNo, hasSeq) && Carries(d.item.updateId, hasUpdate)
    requires Stale(item, BookOf(d))
    ensures AtMost(item.seqNo, item.updateId, d.item.seqNo, d.item.updateId)
  {
  }

  lemma NewGreatest(front: seq<Delivery>, d: Delivery, last: Delivery)
    requires Greatest(d, front) && last.item.symbol == d.item.symbol
    requires AtMost(d.item.seqNo, d.item.updateId, last.item.seqNo, last.item.updateId)
    ensures Greatest(last, front + [last])
  {
  }

  // ---------------------------------------------------------------- convergence

  // What was delivered for the symbol, whatever the order, the repetitions and the timestamps.
  ghost function ItemsFor(deliveries: seq<Delivery>, symbol: string): set<Item> {
    set d | d in deliveries && d.item.symbol == symbol :: d.item
  }

  // The same version and the same levels.
  predicate Alike(a: Item, b: Item) {
    && a.seqNo == b.seqNo && a.updateId == b.updateId
    && Levels(a.bids) == Levels(b.bids) && Levels(a.asks) == Levels(b.asks)
  }

  // The book an item leaves, apart from its timestamp.
  predicate Shows(book: Book, item: Item) {
    && book.bids == Levels(item.bids) && book.asks == Levels(item.asks)
    && book.seqNo == item.seqNo && book.updateId == item.updateId
  }

  // The same book, received at possibly different times.
  predicate SameBook(a: Option<Book>, b: Option<Book>) {
    if a.Some? && b.Some? then a.value == b.value.(timestamp := a.value.timestamp) else a == b
  }

  // Every order and every repetition of these updates ends in the same book.
  ghost predicate Converges(items: set<Item>, symbol: string) {
    forall a, b :: ItemsFor(a, symbol) == items && ItemsFor(b, symbol) == items ==>
      SameBook(Kept(a, symbol), Kept(b, symbol))
  }

  predicate StaleAfter(item: Item, prev: Item) {
    Stale(item, BookOf(Delivery(prev, 0)))
  }

  // m replaces every update that differs from it, and none of them replaces m.
  ghost predicate Dominant(m: Item, items: set<Item>) {
    m in items && forall i :: i in items && !Alike(i, m) ==> StaleAfter(i, m) && !StaleAfter(m, i)
  }

  // The exact condition for convergence, whatever version fields the updates carry.
  lemma ConvergesIff(items: set<Item>, symbol: string)
    requires items != {} && forall i :: i in items ==> i.symbol == symbol
    ensures Converges(items, symbol) <==> exists m :: Dominant(m, items)
  {
    hide Kept, Dominant, SameBook;
    if m :| Dominant(m, items) {
      forall a, b | ItemsFor(a, symbol) == items && ItemsFor(b, symbol) == items
        ensures SameBook(Kept(a, symbol), Kept(b, symbol))
      {
        DominantIsIn(m, items);
        DominantIsKept(a, symbol, m, items);
        DominantIsKept(b, symbol, m, items);
        BothShow(Kept(a, symbol).value, Kept(b, symbol).value, m);
      }
    }
    if Converges(items, symbol) {
      var m := ConvergentIsDominant(items, symbol);
    }
  }

  lemma DominantIsIn(m: Item, items: set<Item>)
    requires Dominant(m, items)
    ensures m in items
  {
  }

  lemma BothShow(a: Book, b: Book, m: Item)
    requires Shows(a, m) && Shows(b, m)
    ensures SameBook(Some(a), Some(b))
  {
  }

  // Staleness looks at the version the book shows, and nothing else of it.
  lemma StaleShown(item: Item, book: Book, shown: Item)
    requires Shows(book, shown)
    ensures Stale(item, book) <==> StaleAfter(item, shown)
  {
  }

  lemma StaleAlike(x: Item, m: Item, i: Item)
    requires Alike(x, m)
    ensures StaleAfter(x, i) <==> StaleAfter(m, i)
    ensures StaleAfter(i, x) <==> StaleAfter(i, m)
  {
  }

  lemma ItemsSnoc(deliveries: seq<Delivery>, d: Delivery, symbol: string)
    ensures ItemsFor(deliveries + [d], symbol) ==
      ItemsFor(deliveries, symbol) + (if d.item.symbol == symbol then {d.item} else {})
  {
    assert forall e :: e in deliveries + [d] <==> e in deliveries || e == d;
  }

  // Something is kept exactly when something was delivered, and it shows a delivered update.
  lemma {:induction false} KeptShowsDelivered(deliveries: seq<Delivery>, symbol: string)
    ensures Kept(deliveries, symbol).None? <==> ItemsFor(deliveries, symbol) == {}
    ensures Kept(deliveries, symbol).Some? ==>
      exists i :: i in ItemsFor(deliveries, symbol) && Shows(Kept(deliveries, symbol).value, i)
  {
    hide Kept, Stale, Shows, ItemsFor;
    if deliveries == [] {
      NothingKept(symbol);
      NothingDeliveredFor(symbol);
    } else {
      var front, last := deliveries[..|deliveries| - 1], deliveries[|deliveries| - 1];
      assert deliveries == front + [last];
      KeptShowsDelivered(front, symbol);
      KeptSnoc(front, last, symbol);
      ItemsSnoc(front, last, symbol);
      BookShows(last);
      assert last.item.symbol == symbol ==> last.item in ItemsFor(deliveries, symbol);
    }
  }

  lemma BookShows(d: Delivery)
    ensures Shows(BookOf(d), d.item)
  {
  }

  // Once a dominant update has been delivered, the book shows it.
  lemma {:induction false} DominantIsKept(deliveries: seq<Delivery>, symbol: string, m: Item, items: set<Item>)
    requires Dominant(m, items) && ItemsFor(deliveries, symbol) <= items && m in ItemsFor(deliveries, symbol)
    ensures Kept(deliveries, symbol).Some? && Shows(Kept(deliveries, symbol).value, m)
  {
    hide Kept, Stale, Shows, ItemsFor, Alike, StaleAfter;
    if deliveries == [] {
      NothingKept(symbol);
      NothingDeliveredFor(symbol);
    } else {
      var front, last := deliveries[..|deliveries| - 1], deliveries[|deliveries| - 1];
      assert deliveries == front + [last];
      KeptSnoc(front, last, symbol);
      ItemsSnoc(front, last, symbol);
      BookShows(last);
      KeptShowsDelivered(front, symbol);
      var before := Kept(front, symbol);
      if m in ItemsFor(front, symbol) {
        DominantIsKept(front, symbol, m, items);
        StaleShown(last.item, before.value, m);
        AlikeShows(BookOf(last), last.item, m);
      } else if before.Some? {
        assert last.item == m;
        var k :| k in ItemsFor(front, symbol) && Shows(before.value, k);
        StaleShown(m, before.value, k);
        AlikeShows(before.value, k, m);
      }
    }
  }

  lemma AlikeShows(book: Book, i: Item, m: Item)
    requires Shows(book, i)
    ensures Shows(book, m) <==> Alike(i, m)
  {
  }

  // ---------------------------------------------------------------- convergence needs a dominant update

  // The update that a convergent set always ends in dominates the others.
  lemma ConvergentIsDominant(items: set<Item>, symbol: string) returns (m: Item)
    requires items != {} && forall i :: i in items ==> i.symbol == symbol
    requires Converges(items, symbol)
    ensures Dominant(m, items)
  {
    hide Kept, Stale, Shows, ItemsFor, Alike, StaleAfter, SameBook, Converges, Delivered;
    var all := Listed(items);
    var d := Delivered(all, 0);
    ItemsOfListed(all, symbol);
    KeptShowsDelivered(d, symbol);
    m :| m in ItemsFor(d, symbol) && Shows(Kept(d, symbol).value, m);
    forall i | i in items && !Alike(i, m) ensures StaleAfter(i, m) && !StaleAfter(m, i) {
      if !StaleAfter(i, m) {
        LastOneWins(items, symbol, d, m, i);
      }
      if StaleAfter(m, i) {
        FirstOneStays(items, symbol, d, m, i);
      }
    }
  }

  lemma UseConverges(items: set<Item>, symbol: string, a: seq<Delivery>, b: seq<Delivery>)
    requires Converges(items, symbol) && ItemsFor(a, symbol) == items && ItemsFor(b, symbol) == items
    ensures SameBook(Kept(a, symbol), Kept(b, symbol))
  {
  }

  lemma SameShows(a: Book, b: Book, m: Item)
    requires SameBook(Some(a), Some(b)) && Shows(a, m)
    ensures Shows(b, m)
  {
  }

  // Delivered again at the end, a different update that is not stale would be kept instead.
  lemma LastOneWins(items: set<Item>, symbol: string, d: seq<Delivery>, m: Item, i: Item)
    requires Converges(items, symbol) && ItemsFor(d, symbol) == items
    requires Kept(d, symbol).Some? && Shows(Kept(d, symbol).value, m)
    requires i in items && i.symbol == symbol && !Alike(i, m)
    ensures StaleAfter(i, m)
  {
    hide Kept, Stale, Shows, ItemsFor, Alike, StaleAfter, SameBook, Converges;
    var again := Delivery(i, 0);
    ItemsSnoc(d, again, symbol);
    KeptSnoc(d, again, symbol);
    StaleShown(i, Kept(d, symbol).value, m);
    if !StaleAfter(i, m) {
      UseConverges(items, symbol, d, d + [again]);
      SameShows(Kept(d, symbol).value, BookOf(again), m);
      BookShows(again);
      AlikeShows(BookOf(again), i, m);
    }
  }

  // Delivered first, and followed at once by everything like m, an update that m does not replace keeps
  // m out for good.
  lemma FirstOneStays(items: set<Item>, symbol: string, d: seq<Delivery>, m: Item, i: Item)
    requires Converges(items, symbol) && ItemsFor(d, symbol) == items
    requires Kept(d, symbol).Some? && Shows(Kept(d, symbol).value, m)
    requires i in items && !Alike(i, m) && forall j :: j in items ==> j.symbol == symbol
    ensures !StaleAfter(m, i)
  {
    hide Kept, Stale, Shows, ItemsFor, Alike, StaleAfter, SameBook, Converges, Delivered;
    var alike, rest := set x | x in items && Alike(x, m), set x | x in items && !Alike(x, m);
    var first, second := Listed(alike), Listed(rest);
    var start := [Delivery(i, 0)];
    NothingKept(symbol);
    NothingDeliveredFor(symbol);
    KeptSnoc([], Delivery(i, 0), symbol);
    ItemsSnoc([], Delivery(i, 0), symbol);
    assert [] + start == start;
    BookShows(Delivery(i, 0));
    if StaleAfter(m, i) {
      forall x | x in first ensures StaleAfter(x, i) {
        StaleAlike(x, m, i);
      }
      StaysThrough(start, first, symbol, i);
      AlikeShows(Kept(start + Delivered(first, 0), symbol).value, i, m);
      NeverShows(start + Delivered(first, 0), second, symbol, m);
      var e := start + Delivered(first, 0) + Delivered(second, 0);
      assert items == {i} + alike + rest;
      UseConverges(items, symbol, d, e);
      SameShows(Kept(d, symbol).value, Kept(e, symbol).value, m);
    }
  }

  lemma {:induction false} StaysThrough(d: seq<Delivery>, xs: seq<Item>, symbol: string, i: Item)
    requires Kept(d, symbol).Some? && Shows(Kept(d, symbol).value, i)
    requires forall x :: x in xs ==> x.symbol == symbol && StaleAfter(x, i)
    ensures Kept(d + Delivered(xs, 0), symbol) == Kept(d, symbol)
    ensures ItemsFor(d + Delivered(xs, 0), symbol) == ItemsFor(d, symbol) + set x | x in xs
  {
    hide Kept, Stale, Shows, ItemsFor, StaleAfter;
    if xs == [] {
      assert d + Delivered(xs, 0) == d;
    } else {
      var n := |xs| - 1;
      StaysThrough(d, xs[..n], symbol, i);
      DeliveredOneMore(d, xs);
      KeptSnoc(d + Delivered(xs[..n], 0), Delivery(xs[n], 0), symbol);
      ItemsSnoc(d + Delivered(xs[..n], 0), Delivery(xs[n], 0), symbol);
      StaleShown(xs[n], Kept(d, symbol).value, i);
      assert xs[n] in xs && forall x :: x in xs <==> x in xs[..n] || x == xs[n];
    }
  }

  lemma {:induction false} NeverShows(d: seq<Delivery>, xs: seq<Item>, symbol: string, m: Item)
    requires Kept(d, symbol).Some? && !Shows(Kept(d, symbol).value, m)
    requires forall x :: x in xs ==> x.symbol == symbol && !Alike(x, m)
    ensures var e := d + Delivered(xs, 0);
      && Kept(e, symbol).Some? && !Shows(Kept(e, symbol).value, m)
      && ItemsFor(e, symbol) == ItemsFor(d, symbol) + set x | x in xs
  {
    hide Kept, Stale, Shows, ItemsFor, Alike;
    if xs == [] {
      assert d + Delivered(xs, 0) == d;
    } else {
      var n := |xs| - 1;
      NeverShows(d, xs[..n], symbol, m);
      DeliveredOneMore(d, xs);
      KeptSnoc(d + Delivered(xs[..n], 0), Delivery(xs[n], 0), symbol);
      ItemsSnoc(d + Delivered(xs[..n], 0), Delivery(xs[n], 0), symbol);
      BookShows(Delivery(xs[n], 0));
      AlikeShows(BookOf(Delivery(xs[n], 0)), xs[n], m);
      assert xs[n] in xs && forall x :: x in xs <==> x in xs[..n] || x == xs[n];
    }
  }

  lemma DeliveredOneMore(d: seq<Delivery>, xs: seq<Item>)
    requires xs != []
    ensures var n := |xs| - 1;
      d + Delivered(xs, 0) == d + Delivered(xs[..n], 0) + [Delivery(xs[n], 0)]
  {
    hide Delivered;
    var n := |xs| - 1;
    assert xs[..n + 1] == xs;
    DeliveredSnoc(xs, 0, n);
    Regroup(d, Delivered(xs[..n], 0), Delivery(xs[n], 0));
  }

  lemma Regroup(a: seq<Delivery>, b: seq<Delivery>, d: Delivery)
    ensures a + (b + [d]) == a + b + [d]
  {
  }

  lemma NothingDeliveredFor(symbol: string)
    ensures ItemsFor([], symbol) == {}
  {
  }

  // The elements of a finite set in some order.
  ghost function Listed(items: set<Item>): (s: seq<Item>)
    ensures forall x :: x in s <==> x in items
  {
    if items == {} then []
    else
      var x :| x in items;
      Listed(items - {x}) + [x]
  }

  lemma ItemsOfListed(s: seq<Item>, symbol: string)
    requires forall x :: x in s ==> x.symbol == symbol
    ensures ItemsFor(Delivered(s, 0), symbol) == set x | x in s
  {
    var d := Delivered(s, 0);
    forall x | x in s ensures x in ItemsFor(d, symbol) {
      var k :| 0 <= k < |s| && s[k] == x;
      assert d[k] == Delivery(x, 0);
    }
  }

  // ---------------------------------------------------------------- uniform version fields

  ghost predicate UniformItems(items: set<Item>, hasSeq: bool, hasUpdate: bool) {
    forall i :: i in items ==> Carries(i.seqNo, hasSeq) && Carries(i.updateId, hasUpdate)
  }

  ghost predicate Newest(i: Item, items: set<Item>) {
    i in items && forall j :: j in items ==> AtMost(j.seqNo, j.updateId, i.seqNo, i.updateId)
  }

  // With the same version fields on all updates, they converge exactly when those of the greatest
  // version agree; ties below it do not matter.
  lemma UniformConvergesIff(items: set<Item>, symbol: string, hasSeq: bool, hasUpdate: bool)
    requires items != {} && forall i :: i in items ==> i.symbol == symbol
    requires UniformItems(items, hasSeq, hasUpdate)
    ensures Converges(items, symbol) <==>
      forall a, b :: Newest(a, items) && Newest(b, items) ==> Alike(a, b)
  {
    hide Converges, AtMost, Alike, StaleAfter;
    ConvergesIff(items, symbol);
    var top := SomeNewest(items);
    if forall a, b :: Newest(a, items) && Newest(b, items) ==> Alike(a, b) {
      forall i | i in items && !Alike(i, top) ensures StaleAfter(i, top) && !StaleAfter(top, i) {
        UniformStale(i, top, hasSeq, hasUpdate);
        if AtMost(top.seqNo, top.updateId, i.seqNo, i.updateId) {
          NewestToo(top, i, items);
        }
      }
      assert Dominant(top, items);
    }
    if m :| Dominant(m, items) {
      forall a | Newest(a, items) ensures Alike(a, m) {
        UniformStale(a, m, hasSeq, hasUpdate);
        assert AtMost(m.seqNo, m.updateId, a.seqNo, a.updateId);
      }
      forall a, b | Newest(a, items) && Newest(b, items) ensures Alike(a, b) {
        AlikeBoth(a, b, m);
      }
    }
  }

  // Two deliveries of the same updates with uniform fields, in any order and with any repetitions, end in
  // the same book when the updates of the greatest version agree.
  lemma Convergence(a: seq<Delivery>, b: seq<Delivery>, symbol: string, hasSeq: bool, hasUpdate: bool)
    requires Uniform(a, symbol, hasSeq, hasUpdate) && ItemsFor(a, symbol) == ItemsFor(b, symbol)
    requires var items := ItemsFor(a, symbol); forall x, y :: Newest(x, items) && Newest(y, items) ==> Alike(x, y)
    ensures SameBook(Kept(a, symbol), Kept(b, symbol))
  {
    hide Kept, Alike;
    KeptShowsDelivered(a, symbol);
    KeptShowsDelivered(b, symbol);
    if ItemsFor(a, symbol) != {} {
      UniformConvergesIff(ItemsFor(a, symbol), symbol, hasSeq, hasUpdate);
      UseConverges(ItemsFor(a, symbol), symbol, a, b);
    }
  }

  lemma AlikeBoth(a: Item, b: Item, m: Item)
    requires Alike(a, m) && Alike(b, m)
    ensures Alike(a, b)
  {
  }

  lemma NewestToo(top: Item, i: Item, items: set<Item>)
    requires Newest(top, items) && i in items && AtMost(top.seqNo, top.updateId, i.seqNo, i.updateId)
    ensures Newest(i, items)
  {
  }

  // An update is replaced by a strictly newer one and does not replace it; of equal versions, either each
  // replaces the other or neither does.
  lemma UniformStale(i: Item, m: Item, hasSeq: bool, hasUpdate: bool)
    requires Carries(i.seqNo, hasSeq) && Carries(i.updateId, hasUpdate)
    requires Carries(m.seqNo, hasSeq) && Carries(m.updateId, hasUpdate)
    ensures StaleAfter(i, m) && !StaleAfter(m, i) <==> !AtMost(m.seqNo, m.updateId, i.seqNo, i.updateId)
  {
  }

  lemma {:induction false} SomeNewest(items: set<Item>) returns (top: Item)
    requires items != {}
    ensures Newest(top, items)
    decreases |items|
  {
    hide AtMost;
    var x :| x in items;
    AtMostLaws(x, x, x);
    if items == {x} {
      return x;
    }
    assert items == {x} + (items - {x});
    var y := SomeNewest(items - {x});
    AtMostLaws(x, y, y);
    top := if AtMost(y.seqNo, y.updateId, x.seqNo, x.updateId) then x else y;
    forall j | j in items ensures AtMost(j.seqNo, j.updateId, top.seqNo, top.updateId) {
      AtMostLaws(j, y, x);
    }
  }

  lemma AtMostLaws(a: Item, b: Item, c: Item)
    ensures AtMost(a.seqNo, a.updateId, a.seqNo, a.updateId)
    ensures AtMost(a.seqNo, a.updateId, b.seqNo, b.updateId) || AtMost(b.seqNo, b.updateId, a.seqNo, a.updateId)
    ensures AtMost(a.seqNo, a.updateId, b.seqNo, b.updateId) && AtMost(b.seqNo, b.updateId, c.seqNo, c.updateId) ==>
      AtMost(a.seqNo, a.updateId, c.seqNo, c.updateId)
  {
  }

  // Two updates with both fields and one version end in the same book in either order exactly when their
  // books are equal.
  lemma TiesMustAgree(x: Delivery, y: Delivery)
    requires x.item.symbol == y.item.symbol
    requires x.item.seqNo == y.item.seqNo && x.item.updateId == y.item.updateId
    requires x.item.seqNo.Number? && x.item.updateId.Number?
    ensures SameBook(Kept([x, y], x.item.symbol), Kept([y, x], x.item.symbol)) <==>
      Levels(x.item.bids) == Levels(y.item.bids) && Levels(x.item.asks) == Levels(y.item.asks)
  {
    hide Kept;
    var s := x.item.symbol;
    NothingKept(s);
    assert [] + [x] == [x] && [x] + [y] == [x, y] && [] + [y] == [y] && [y] + [x] == [y, x];
    KeptSnoc([], x, s);
    KeptSnoc([x], y, s);
    KeptSnoc([], y, s);
    KeptSnoc([y], x, s);
  }

  lemma NothingKept(symbol: string)
    ensures Kept([], symbol) == None
  {
  }

  // Without a dominant update the order decides: after seq 2, an update without seq lets an older seq 1 back in.
  lemma MixedFieldsGoBack(symbol: string)
    ensures var newer := Delivery(Item(symbol, [], [], Number(2), Missing), 0);
      var bare := Delivery(Item(symbol, [], [], Missing, Number(1)), 0);
      var older := Delivery(Item(symbol, [], [], Number(1), Number(2)), 0);
      && Kept([newer, older], symbol) == Some(BookOf(newer))
      && Kept([newer, bare, older], symbol) == Some(BookOf(older))
  {
    hide Kept;
    var newer := Delivery(Item(symbol, [], [], Number(2), Missing), 0);
    var bare := Delivery(Item(symbol, [], [], Missing, Number(1)), 0);
    var older := Delivery(Item(symbol, [], [], Number(1), Number(2)), 0);
    NothingKept(symbol);
    assert [] + [newer] == [newer] && [newer] + [older] == [newer, older];
    assert [newer] + [bare] == [newer, bare] && [newer, bare] + [older] == [newer, bare, older];
    KeptSnoc([], newer, symbol);
    KeptSnoc([newer], older, symbol);
    KeptSnoc([newer], bare, symbol);
    KeptSnoc([newer, bare], older, symbol);
  }
}
