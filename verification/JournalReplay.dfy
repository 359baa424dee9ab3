/** Ingesting again, and in instalments: when the journal ends up the same. */
module JournalReplay {
  import opened TradeJournal

  // ---------------------------------------------------------------- incremental ingest

  // The rows a second pass over `legs` inserts again: those of order id 0.
  function UnkeyedRows(legs: seq<Fill>): seq<Row> {
    if legs == [] then []
    else
      var n := |legs| - 1;
      var front := UnkeyedRows(legs[..n]);
      if legs[n].orderId == 0 then front + [RowFor(QueuesAfter(legs[..n]), legs[n])] else front
  }

  lemma {:induction false} UnkeyedRowsKeys(legs: seq<Fill>)
    ensures forall k :: k in Keys(UnkeyedRows(legs)) ==> k.0 == 0
    ensures |UnkeyedRows(legs)| == 0 <==> forall f :: f in legs ==> f.orderId != 0
  {
    if legs != [] {
      var n := |legs| - 1;
      UnkeyedRowsKeys(legs[..n]);
      assert legs == legs[..n] + [legs[n]];
      if legs[n].orderId == 0 {
        KeysSnoc(UnkeyedRows(legs[..n]), RowFor(QueuesAfter(legs[..n]), legs[n]));
      }
    }
  }

  lemma {:induction false} ReplayJournalled(legs: seq<Fill>, keys: set<Key>)
    requires forall f :: f in legs && f.orderId != 0 ==> (f.orderId, f.side) in keys
    ensures NewRows(legs, keys) == UnkeyedRows(legs)
  {
    if legs != [] {
      ReplayJournalled(legs[..|legs| - 1], keys);
    }
  }

  // One symbol, two passes: ingesting a prefix p and then p + s inserts, the second time, the
  // id-0 rows of p again and otherwise exactly the tail a single pass over p + s adds after p's rows.
  lemma {:induction false} SecondPass(p: seq<Fill>, s: seq<Fill>, keys: set<Key>) returns (tail: seq<Row>)
    ensures NewRows(p + s, keys) == NewRows(p, keys) + tail
    ensures NewRows(p + s, keys + Keys(NewRows(p, keys))) == UnkeyedRows(p) + tail
    decreases |s|
  {
    if s == [] {
      assert p + s == p;
      tail := [];
      IngestedAreJournalled(p, keys);
      ReplayJournalled(p, keys + Keys(NewRows(p, keys)));
    } else {
      var n := |s| - 1;
      assert p + s == p + s[..n] + [s[n]];
      var front := SecondPass(p, s[..n], keys);
      NewRowsSnoc(p + s[..n], s[n], keys);
      NewRowsSnoc(p + s[..n], s[n], keys + Keys(NewRows(p, keys)));
      SameVerdict(p, NewRows(p, keys), front, s[n], keys);
      tail := front + if Journalled(keys + Keys(NewRows(p, keys) + front), s[n]) then []
                      else [RowFor(QueuesAfter(p + s[..n]), s[n])];
    }
  }

  lemma SameVerdict(p: seq<Fill>, first: seq<Row>, tail: seq<Row>, f: Fill, keys: set<Key>)
    ensures Journalled(keys + Keys(first) + Keys(UnkeyedRows(p) + tail), f)
      <==> Journalled(keys + Keys(first + tail), f)
  {
    KeysOfConcat(first, tail);
    KeysOfConcat(UnkeyedRows(p), tail);
    UnkeyedRowsKeys(p);
  }

  // No order id is shared by two symbols.
  ghost predicate IdsPerSymbol(fills: seq<Fill>) {
    forall f, g :: f in fills && g in fills && f.orderId == g.orderId != 0 ==> f.symbol == g.symbol
  }

  // The key sets a and b agree on every leg of `symbol`.
  ghost predicate SameKeys(fills: seq<Fill>, symbol: string, a: set<Key>, b: set<Key>) {
    forall f :: f in fills && f.symbol == symbol && f.orderId != 0 ==>
      ((f.orderId, f.side) in a <==> (f.orderId, f.side) in b)
  }

  // NewRows looks at the journal only through the keys of its own legs.
  lemma {:induction false} NewRowsAgree(legs: seq<Fill>, symbol: string, a: set<Key>, b: set<Key>)
    requires SameKeys(legs, symbol, a, b)
    requires forall f :: f in legs ==> f.symbol == symbol
    ensures NewRows(legs, a) == NewRows(legs, b)
  {
    if legs != [] {
      NewRowsAgree(legs[..|legs| - 1], symbol, a, b);
    }
  }

  lemma {:induction false} RowsOfConcat(a: seq<Row>, b: seq<Row>, symbol: string)
    ensures RowsOf(a + b, symbol) == RowsOf(a, symbol) + RowsOf(b, symbol)
    decreases |b|
  {
    if b == [] {
      assert a + b == a;
    } else {
      var n := |b| - 1;
      assert (a + b)[..|a| + n] == a + b[..n];
      RowsOfConcat(a, b[..n], symbol);
    }
  }

  lemma {:induction false} RowsOfUniform(rows: seq<Row>, symbol: string, wanted: string)
    requires forall r :: r in rows ==> r.symbol == symbol
    ensures RowsOf(rows, wanted) == if wanted == symbol then rows else []
  {
    if rows != [] {
      RowsOfUniform(rows[..|rows| - 1], symbol, wanted);
    }
  }

  // The legs of one symbol add rows of that symbol only, and no key of another symbol's legs.
  lemma NewRowsOfSymbol(all: seq<Fill>, fills: seq<Fill>, symbol: string, keys: set<Key>, wanted: string)
    requires IdsPerSymbol(all) && forall f :: f in fills ==> f in all
    ensures var added := NewRows(Legs(fills, symbol), keys);
      && RowsOf(added, wanted) == (if wanted == symbol then added else [])
      && (wanted != symbol ==> SameKeys(all, wanted, Keys(added), {}))
  {
    LegsMembers(fills, symbol);
    IngestedAreJournalled(Legs(fills, symbol), keys);
    var added := NewRows(Legs(fills, symbol), keys);
    RowsOfUniform(added, symbol, wanted);
    if wanted != symbol {
      forall f | f in all && f.symbol == wanted && f.orderId != 0
        ensures (f.orderId, f.side) !in Keys(added)
      {
        KeysMembers(added, (f.orderId, f.side));
        forall i | 0 <= i < |added| ensures added[i].orderId != f.orderId {
          assert added[i] in added;
        }
      }
    }
  }

  lemma SameLegsSameRows(fills: seq<Fill>, symbol: string, all: seq<Fill>, a: set<Key>, b: set<Key>)
    requires SameKeys(all, symbol, a, b)
    requires forall f :: f in fills ==> f in all
    ensures NewRows(Legs(fills, symbol), a) == NewRows(Legs(fills, symbol), b)
  {
    LegsMembers(fills, symbol);
    NewRowsAgree(Legs(fills, symbol), symbol, a, b);
  }

  function RowsFor(rows: seq<Row>, fills: seq<Fill>, symbols: seq<string>, wanted: string): seq<Row> {
    if wanted in symbols then NewRows(Legs(fills, wanted), Keys(rows)) else []
  }

  lemma SameKeysUnion(all: seq<Fill>, symbol: string, a: set<Key>, b: set<Key>, c: set<Key>, d: set<Key>)
    requires SameKeys(all, symbol, a, b) && SameKeys(all, symbol, c, d)
    ensures SameKeys(all, symbol, a + c, b + d)
  {
  }

  // The journal `now` holds for `wanted` what one ingest of the listed symbols adds to `rows`.
  ghost predicate Isolated(all: seq<Fill>, rows: seq<Row>, now: seq<Row>, own: seq<Row>, wanted: string) {
    && RowsOf(now, wanted) == RowsOf(rows, wanted) + own
    && SameKeys(all, wanted, Keys(now), Keys(rows) + Keys(own))
  }

  lemma IsolationOther(all: seq<Fill>, rows: seq<Row>, now: seq<Row>, own: seq<Row>, added: seq<Row>, wanted: string)
    requires Isolated(all, rows, now, own, wanted)
    requires RowsOf(added, wanted) == [] && SameKeys(all, wanted, Keys(added), {})
    ensures Isolated(all, rows, now + added, own, wanted)
  {
    RowsOfConcat(now, added, wanted);
    KeysOfConcat(now, added);
    SameKeysUnion(all, wanted, Keys(now), Keys(rows) + Keys(own), Keys(added), {});
    assert Keys(rows) + Keys(own) + {} == Keys(rows) + Keys(own);
  }

  lemma IsolationOwn(all: seq<Fill>, rows: seq<Row>, now: seq<Row>, added: seq<Row>, wanted: string)
    requires Isolated(all, rows, now, [], wanted)
    requires RowsOf(added, wanted) == added
    ensures Isolated(all, rows, now + added, added, wanted)
  {
    RowsOfConcat(now, added, wanted);
    KeysOfConcat(now, added);
    assert Keys(rows) + Keys([]) == Keys(rows);
    SameKeysUnion(all, wanted, Keys(now), Keys(rows), Keys(added), Keys(added));
  }

  // Symbols do not interfere: whatever the others insert, a symbol adds the rows it would add to
  // the initial journal, and its legs meet the keys of those rows and the initial ones only.
  lemma {:induction false} SymbolsAreIsolated(all: seq<Fill>, rows: seq<Row>, fills: seq<Fill>,
                                              symbols: seq<string>, wanted: string)
    requires IdsPerSymbol(all) && forall f :: f in fills ==> f in all
    requires forall i, j :: 0 <= i < j < |symbols| ==> symbols[i] != symbols[j]
    ensures Isolated(all, rows, IngestSymbols(rows, fills, symbols),
                     RowsFor(rows, fills, symbols, wanted), wanted)
  {
    if symbols == [] {
      assert Keys(rows) + Keys([]) == Keys(rows);
    } else {
      var n := |symbols| - 1;
      SymbolsAreIsolated(all, rows, fills, symbols[..n], wanted);
      assert symbols == symbols[..n] + [symbols[n]];
      IsolationStep(all, rows, fills, symbols[..n], symbols[n], wanted);
    }
  }

  lemma IsolationStep(all: seq<Fill>, rows: seq<Row>, fills: seq<Fill>, symbols: seq<string>,
                      s: string, wanted: string)
    requires IdsPerSymbol(all) && forall f :: f in fills ==> f in all
    requires s !in symbols
    requires Isolated(all, rows, IngestSymbols(rows, fills, symbols),
                      RowsFor(rows, fills, symbols, wanted), wanted)
    ensures Isolated(all, rows, IngestSymbols(rows, fills, symbols + [s]),
                     RowsFor(rows, fills, symbols + [s], wanted), wanted)
  {
    var front := IngestSymbols(rows, fills, symbols);
    var added := NewRows(Legs(fills, s), Keys(front));
    assert (symbols + [s])[..|symbols|] == symbols;
    assert IngestSymbols(rows, fills, symbols + [s]) == front + added;
    NewRowsOfSymbol(all, fills, s, Keys(front), wanted);
    if s == wanted {
      assert Keys(rows) + Keys([]) == Keys(rows);
      SameLegsSameRows(fills, s, all, Keys(front), Keys(rows));
      IsolationOwn(all, rows, front, added, wanted);
    } else {
      IsolationOther(all, rows, front, RowsFor(rows, fills, symbols, wanted), added, wanted);
    }
  }

  // Per symbol, an ingest adds exactly the rows its sorted legs add to the journal it started from.
  lemma IngestRowsOf(all: seq<Fill>, rows: seq<Row>, fills: seq<Fill>, symbol: string)
    requires IdsPerSymbol(all) && forall f :: f in fills ==> f in all
    ensures Isolated(all, rows, Ingest(rows, fills), NewRows(Legs(fills, symbol), Keys(rows)), symbol)
  {
    SymbolsMembers(fills);
    SymbolsAreIsolated(all, rows, fills, Symbols(fills), symbol);
    if symbol !in Symbols(fills) {
      NoLegs(fills, symbol);
    }
  }

  lemma {:induction false} NoLegs(fills: seq<Fill>, symbol: string)
    requires forall f :: f in fills ==> f.symbol != symbol
    ensures LegsOf(fills, symbol) == []
  {
    if fills != [] {
      NoLegs(fills[..|fills| - 1], symbol);
    }
  }

  lemma LegsSplit(fills: seq<Fill>, t: int, symbol: string) returns (late: seq<Fill>)
    ensures Legs(fills, symbol) == Legs(Upto(fills, t), symbol) + late
  {
    LegsOfUpto(fills, symbol, t);
    SortSplitsByTime(LegsOf(fills, symbol), t);
    late := StableSort(After(LegsOf(fills, symbol), t));
  }

  lemma Assoc(a: seq<Row>, b: seq<Row>, c: seq<Row>)
    ensures a + (b + c) == a + b + c
  {
  }

  lemma TwoIngests(rows: seq<Row>, fills: seq<Fill>, t: int, symbol: string) returns (tail: seq<Row>)
    requires IdsPerSymbol(fills)
    ensures var first, legs := Upto(fills, t), Legs(Upto(fills, t), symbol);
      var start := RowsOf(rows, symbol) + NewRows(legs, Keys(rows));
      && RowsOf(Ingest(rows, fills), symbol) == start + tail
      && RowsOf(Ingest(Ingest(rows, first), fills), symbol) == start + UnkeyedRows(legs) + tail
  {
    var legs := Legs(Upto(fills, t), symbol);
    OneAndTwoPasses(rows, fills, t, symbol);
    var late := LegsSplit(fills, t, symbol);
    tail := SecondPass(legs, late, Keys(rows));
    var start := RowsOf(rows, symbol);
    Assoc(start, NewRows(legs, Keys(rows)), tail);
    Assoc(start + NewRows(legs, Keys(rows)), UnkeyedRows(legs), tail);
  }

  lemma OneAndTwoPasses(rows: seq<Row>, fills: seq<Fill>, t: int, symbol: string)
    requires IdsPerSymbol(fills)
    ensures var own, all := NewRows(Legs(Upto(fills, t), symbol), Keys(rows)), Legs(fills, symbol);
      && RowsOf(Ingest(rows, fills), symbol) == RowsOf(rows, symbol) + NewRows(all, Keys(rows))
      && RowsOf(Ingest(Ingest(rows, Upto(fills, t)), fills), symbol)
         == RowsOf(rows, symbol) + own + NewRows(all, Keys(rows) + Keys(own))
  {
    var first := Upto(fills, t);
    var mid := Ingest(rows, first);
    UptoAfterTimes(fills, t);
    IngestRowsOf(fills, rows, first, symbol);
    IngestRowsOf(fills, rows, fills, symbol);
    IngestRowsOf(fills, mid, fills, symbol);
    SameLegsSameRows(fills, symbol, fills, Keys(mid),
                     Keys(rows) + Keys(NewRows(Legs(first, symbol), Keys(rows))));
  }

  // Ingesting a time-prefix of the fills and later all of them adds, for every symbol, the rows of
  // one ingest of everything, plus once more each id-0 row of the prefix.
  lemma IncrementalIngest(rows: seq<Row>, fills: seq<Fill>, t: int, symbol: string)
    requires IdsPerSymbol(fills)
    ensures var legs := Legs(Upto(fills, t), symbol);
      var start := RowsOf(rows, symbol) + NewRows(legs, Keys(rows));
      && start <= RowsOf(Ingest(rows, fills), symbol)
      && RowsOf(Ingest(Ingest(rows, Upto(fills, t)), fills), symbol)
         == start + UnkeyedRows(legs) + RowsOf(Ingest(rows, fills), symbol)[|start|..]
  {
    var tail := TwoIngests(rows, fills, t, symbol);
  }

  lemma SymbolAgrees(rows: seq<Row>, fills: seq<Fill>, t: int, symbol: string)
    requires IdsPerSymbol(fills)
    ensures RowsOf(Ingest(Ingest(rows, Upto(fills, t)), fills), symbol) == RowsOf(Ingest(rows, fills), symbol)
      <==> forall f :: f in Upto(fills, t) && f.symbol == symbol ==> f.orderId != 0
  {
    var tail := TwoIngests(rows, fills, t, symbol);
    var legs := Legs(Upto(fills, t), symbol);
    UnkeyedRowsKeys(legs);
    LegsMembers(Upto(fills, t), symbol);
    var start := RowsOf(rows, symbol) + NewRows(legs, Keys(rows));
    assert UnkeyedRows(legs) == [] ==> start + UnkeyedRows(legs) == start;
  }

  // Incremental ingest agrees with one-shot ingest on every symbol exactly when no fill of the
  // earlier fetch has order id 0, which the duplicate check never recognizes.
  lemma IncrementalEqualsOneShot(rows: seq<Row>, fills: seq<Fill>, t: int)
    requires IdsPerSymbol(fills)
    ensures (forall symbol :: RowsOf(Ingest(Ingest(rows, Upto(fills, t)), fills), symbol)
                           == RowsOf(Ingest(rows, fills), symbol))
      <==> (forall f :: f in Upto(fills, t) ==> f.orderId != 0)
  {
    forall symbol
      ensures RowsOf(Ingest(Ingest(rows, Upto(fills, t)), fills), symbol) == RowsOf(Ingest(rows, fills), symbol)
        <==> forall f :: f in Upto(fills, t) && f.symbol == symbol ==> f.orderId != 0
    {
      SymbolAgrees(rows, fills, t, symbol);
    }
    if f :| f in Upto(fills, t) && f.orderId == 0 {
      assert RowsOf(Ingest(Ingest(rows, Upto(fills, t)), fills), f.symbol)
          != RowsOf(Ingest(rows, fills), f.symbol);
    }
  }

  // Ingesting the same fetch twice inserts nothing the second time, unless it holds an id-0 fill.
  lemma ReingestIsIdle(rows: seq<Row>, fills: seq<Fill>)
    requires IdsPerSymbol(fills)
    requires forall f :: f in fills ==> f.orderId != 0
    ensures forall symbol :: RowsOf(Ingest(Ingest(rows, fills), fills), symbol)
                          == RowsOf(Ingest(rows, fills), symbol)
  {
    var t := LatestTime(fills);
    UptoAll(fills, t);
    IncrementalEqualsOneShot(rows, fills, t);
  }

  function LatestTime(fills: seq<Fill>): (t: int)
    ensures forall f :: f in fills ==> f.timestamp <= t
  {
    if fills == [] then 0
    else
      var n := |fills| - 1;
      var t := LatestTime(fills[..n]);
      assert fills == fills[..n] + [fills[n]];
      if fills[n].timestamp > t then fills[n].timestamp else t
  }

  lemma {:induction false} UptoAll(fills: seq<Fill>, t: int)
    requires forall f :: f in fills ==> f.timestamp <= t
    ensures Upto(fills, t) == fills
  {
    if fills != [] {
      UptoAll(fills[..|fills| - 1], t);
    }
  }
}
