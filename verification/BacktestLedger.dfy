/** The backtest's cash ledger: fills, margin, realised PnL, the daily entry cap and the drawdown. */
module BacktestLedger {
  import opened Reals
  import opened Wrappers

  // ENTER and EXIT trade; any other action only carries a price.
  datatype Kind = Enter | Exit | Other

  // The text BUY, any other spelling that reads as BUY or LONG, any other text, or no text at all.
  datatype Side = Buy | ReadsLong | ReadsShort | Unset

  datatype Action = Action(kind: Kind, contract: Option<string>, symbol: string, side: Side, quantity: real, price: Option<real>)

  datatype Position = Position(entryPrice: real, quantity: real, side: Side, currentPrice: real)

  datatype Trade = Trade(id: nat, symbol: string, quantity: real, price: real, fee: real, pnl: real)

  datatype Config = Config(startingCapital: real, commissionPct: real, slippagePct: real, leverage: real, maxTradesPerDay: int)

  // One time step: its day, and what the strategy returned; None if it raised.
  datatype TimeStep = TimeStep(day: int, actions: Option<seq<Action>>)

  // The simulation's variables, and `displaced`, which the program does not keep: margin of entries
  // that a later ENTER on the same contract overwrote.
  datatype State = State(cash: real, positions: map<string, Position>, trades: seq<Trade>, counter: nat,
                         enters: map<int, nat>, grossWins: real, grossLosses: real, displaced: real)

  // ---------------------------------------------------------------- fills and positions

  // A configured leverage that is not positive counts as ten.
  function Leverage(c: Config): (lev: real)
    ensures lev > 0.0
  {
    if c.leverage <= 0.0 then 10.0 else c.leverage
  }

  // The margin a position locks.
  function Margin(p: Position, leverage: real): real
    requires leverage > 0.0
  {
    p.entryPrice * p.quantity / leverage
  }

  function FillPrice(price: real, side: Side, slippagePct: real): real {
    Slipped(price, side, Slippage(price, slippagePct))
  }

  function Slippage(price: real, slippagePct: real): real {
    price * slippagePct
  }

  function Slipped(price: real, side: Side, slippage: real): real {
    Max(if side == Buy then price + slippage else price - slippage, 0.0)
  }

  function Commission(c: Config, price: real, quantity: real): real {
    price * quantity * c.commissionPct
  }

  // None without a contract or a positive price.
  function SimulateFill(c: Config, a: Action, id: nat): Option<Trade> {
    if a.contract.None? || a.price.None? || a.price.value <= 0.0 then None
    else
      var price := FillPrice(a.price.value, a.side, c.slippagePct);
      Some(Trade(id, a.contract.value, a.quantity, price, Commission(c, price, a.quantity), 0.0))
  }

  function Opened(t: Trade, side: Side): Position {
    Position(t.price, t.quantity, if side == Unset then Buy else side, t.price)
  }

  function PnlOf(p: Position, exitPrice: real): real {
    (if p.side == Buy || p.side == ReadsLong then exitPrice - p.entryPrice else p.entryPrice - exitPrice) * p.quantity
  }

  function KeyOf(a: Action): string {
    if a.contract.Some? && a.contract.value != "" then a.contract.value else a.symbol
  }

  function EntersOn(enters: map<int, nat>, day: int): nat {
    if day in enters then enters[day] else 0
  }

  predicate Capped(c: Config, enters: map<int, nat>, day: int) {
    c.maxTradesPerDay > 0 && EntersOn(enters, day) >= c.maxTradesPerDay
  }

  // ---------------------------------------------------------------- one action

  function OnEnter(c: Config, day: int, s: State, a: Action): State {
    if Capped(c, s.enters, day) then s
    else
      var fill := SimulateFill(c, a, s.counter + 1);
      if fill.None? then s.(counter := s.counter + 1)
      else
        var t := fill.value;
        var p := Opened(t, a.side);
        s.(counter := s.counter + 1,
           trades := s.trades + [t],
           enters := s.enters[day := EntersOn(s.enters, day) + 1],
           positions := s.positions[t.symbol := p],
           displaced := if t.symbol in s.positions then s.displaced + Margin(s.positions[t.symbol], Leverage(c)) else s.displaced,
           cash := s.cash - (Margin(p, Leverage(c)) + t.fee))
  }

  function OnExit(c: Config, s: State, a: Action): State {
    var key := KeyOf(a);
    if key !in s.positions then s
    else
      var p := s.positions[key];
      var exitPrice := if a.price.Some? then a.price.value else 0.0;
      var pnl := PnlOf(p, exitPrice);
      var fee := Commission(c, exitPrice, p.quantity);
      s.(counter := s.counter + 1,
         positions := s.positions - {key},
         trades := s.trades + [Trade(s.counter + 1, if a.contract.Some? then a.contract.value else "", p.quantity, exitPrice, fee, pnl)],
         cash := s.cash + (Margin(p, Leverage(c)) + pnl - fee),
         grossWins := if pnl > 0.0 then s.grossWins + pnl else s.grossWins,
         grossLosses := if pnl > 0.0 then s.grossLosses else s.grossLosses + Abs(pnl))
  }

  function OnAction(c: Config, day: int, s: State, a: Action): State {
    match a.kind
    case Enter => OnEnter(c, day, s, a)
    case Exit => OnExit(c, s, a)
    case Other => s
  }

  function OnActions(c: Config, day: int, s: State, actions: seq<Action>): State {
    if actions == [] then s
    else OnAction(c, day, OnActions(c, day, s, actions[..|actions| - 1]), actions[|actions| - 1])
  }

  // Every action that names an open position and a price marks that position.
  function Mark(positions: map<string, Position>, a: Action): map<string, Position> {
    var key := KeyOf(a);
    if key != "" && key in positions && a.price.Some? then
      positions[key := positions[key].(currentPrice := a.price.value)]
    else positions
  }

  function MarkAll(positions: map<string, Position>, actions: seq<Action>): map<string, Position> {
    if actions == [] then positions
    else Mark(MarkAll(positions, actions[..|actions| - 1]), actions[|actions| - 1])
  }

  // ---------------------------------------------------------------- a whole run

  predicate Idle(step: TimeStep) {
    step.actions.None? || step.actions.value == []
  }

  function OnStep(c: Config, s: State, step: TimeStep): State {
    if Idle(step) then s
    else
      var traded := OnActions(c, step.day, s, step.actions.value);
      traded.(positions := MarkAll(traded.positions, step.actions.value))
  }

  function Start(c: Config): State {
    State(c.startingCapital, map[], [], 0, map[], 0.0, 0.0, 0.0)
  }

  function StateAfter(c: Config, steps: seq<TimeStep>): State {
    if steps == [] then Start(c)
    else OnStep(c, StateAfter(c, steps[..|steps| - 1]), steps[|steps| - 1])
  }

  // ---------------------------------------------------------------- sums over the open positions

  ghost function Total(positions: map<string, Position>, worth: Position -> real): real {
    if positions == map[] then 0.0
    else
      var k :| k in positions;
      worth(positions[k]) + Total(positions - {k}, worth)
  }

  // The order in which positions are summed does not matter.
  lemma {:induction false} TotalRemove(positions: map<string, Position>, worth: Position -> real, k: string)
    requires k in positions
    ensures Total(positions, worth) == worth(positions[k]) + Total(positions - {k}, worth)
    decreases |positions|
  {
    var c := TotalPick(positions, worth);
    if c != k {
      TotalRemove(positions - {c}, worth, k);
      TotalRemove(positions - {k}, worth, c);
      assert positions - {c} - {k} == positions - {k} - {c};
    }
  }

  lemma TotalPick(positions: map<string, Position>, worth: Position -> real) returns (c: string)
    requires positions != map[]
    ensures c in positions && Total(positions, worth) == worth(positions[c]) + Total(positions - {c}, worth)
  {
    c :| c in positions && Total(positions, worth) == worth(positions[c]) + Total(positions - {c}, worth);
  }

  lemma TotalPut(positions: map<string, Position>, worth: Position -> real, k: string, p: Position)
    ensures Total(positions[k := p], worth) ==
      Total(positions, worth) + worth(p) - (if k in positions then worth(positions[k]) else 0.0)
  {
    hide Total;
    TotalRemove(positions[k := p], worth, k);
    assert positions[k := p] - {k} == positions - {k};
    if k in positions {
      TotalRemove(positions, worth, k);
    } else {
      assert positions - {k} == positions;
    }
  }

  function MarginAt(leverage: real): Position -> real
    requires leverage > 0.0
  {
    (p: Position) => Margin(p, leverage)
  }

  function MarketValue(): Position -> real {
    (p: Position) => p.currentPrice * p.quantity
  }

  ghost function OpenMargin(positions: map<string, Position>, leverage: real): real
    requires leverage > 0.0
  {
    Total(positions, MarginAt(leverage))
  }

  ghost function Equity(s: State): real {
    s.cash + Total(s.positions, MarketValue())
  }

  // ---------------------------------------------------------------- conservation

  function SumPnl(trades: seq<Trade>): real {
    if trades == [] then 0.0 else SumPnl(trades[..|trades| - 1]) + trades[|trades| - 1].pnl
  }

  function SumFees(trades: seq<Trade>): real {
    if trades == [] then 0.0 else SumFees(trades[..|trades| - 1]) + trades[|trades| - 1].fee
  }

  lemma SumsSnoc(trades: seq<Trade>, t: Trade)
    ensures SumPnl(trades + [t]) == SumPnl(trades) + t.pnl && SumFees(trades + [t]) == SumFees(trades) + t.fee
  {
    assert (trades + [t])[..|trades|] == trades;
  }

  // No money appears or vanishes: cash, locked margin and the margin of overwritten entries are the
  // starting capital plus realised PnL minus fees. Gross wins and losses split the realised PnL.
  ghost predicate Conserved(c: Config, s: State) {
    && s.cash + OpenMargin(s.positions, Leverage(c)) + s.displaced
       == c.startingCapital + SumPnl(s.trades) - SumFees(s.trades)
    && s.grossWins - s.grossLosses == SumPnl(s.trades)
    && s.grossWins >= 0.0 && s.grossLosses >= 0.0
  }

  lemma StartConserves(c: Config)
    ensures Conserved(c, Start(c))
  {
  }

  lemma EnterConserves(c: Config, day: int, s: State, a: Action)
    requires Conserved(c, s)
    ensures Conserved(c, OnEnter(c, day, s, a))
  {
    hide Margin, Total, SumPnl, SumFees, Leverage, FillPrice, Commission;
    var fill := SimulateFill(c, a, s.counter + 1);
    if !Capped(c, s.enters, day) && fill.Some? {
      SumsSnoc(s.trades, fill.value);
      TotalPut(s.positions, MarginAt(Leverage(c)), fill.value.symbol, Opened(fill.value, a.side));
    }
  }

  lemma ExitConserves(c: Config, s: State, a: Action)
    requires Conserved(c, s)
    ensures Conserved(c, OnExit(c, s, a))
  {
    hide Margin, Total, SumPnl, SumFees, Leverage, PnlOf, KeyOf, Commission;
    var key, after := KeyOf(a), OnExit(c, s, a);
    if key in s.positions {
      SumsSnoc(s.trades, after.trades[|s.trades|]);
      TotalRemove(s.positions, MarginAt(Leverage(c)), key);
    }
  }

  lemma {:induction false} ActionsConserve(c: Config, day: int, s: State, actions: seq<Action>)
    requires Conserved(c, s)
    ensures Conserved(c, OnActions(c, day, s, actions))
  {
    hide Conserved, OnEnter, OnExit;
    if actions != [] {
      var front, a := actions[..|actions| - 1], actions[|actions| - 1];
      ActionsConserve(c, day, s, front);
      EnterConserves(c, day, OnActions(c, day, s, front), a);
      ExitConserves(c, OnActions(c, day, s, front), a);
    }
  }

  // Marking positions to market locks and frees no margin.
  lemma {:induction false} MarkingKeepsMargin(positions: map<string, Position>, actions: seq<Action>, leverage: real)
    requires leverage > 0.0
    ensures OpenMargin(MarkAll(positions, actions), leverage) == OpenMargin(positions, leverage)
  {
    hide Total, KeyOf;
    if actions != [] {
      var before, a := MarkAll(positions, actions[..|actions| - 1]), actions[|actions| - 1];
      MarkingKeepsMargin(positions, actions[..|actions| - 1], leverage);
      if KeyOf(a) in before && a.price.Some? {
        TotalPut(before, MarginAt(leverage), KeyOf(a), before[KeyOf(a)].(currentPrice := a.price.value));
      }
    }
  }

  lemma StepConserves(c: Config, s: State, step: TimeStep)
    requires Conserved(c, s)
    ensures Conserved(c, OnStep(c, s, step))
  {
    hide OnActions, MarkAll, OpenMargin, SumPnl, SumFees;
    if !Idle(step) {
      ActionsConserve(c, step.day, s, step.actions.value);
      MarkingKeepsMargin(OnActions(c, step.day, s, step.actions.value).positions, step.actions.value, Leverage(c));
    }
  }

  lemma {:induction false} MoneyIsConserved(c: Config, steps: seq<TimeStep>)
    ensures Conserved(c, StateAfter(c, steps))
  {
    hide Conserved, OnStep;
    if steps == [] {
      StartConserves(c);
    } else {
      MoneyIsConserved(c, steps[..|steps| - 1]);
      StepConserves(c, StateAfter(c, steps[..|steps| - 1]), steps[|steps| - 1]);
    }
  }

  // The fill is no better than the price for the position it opens.
  predicate Costs(price: real, side: Side, fill: real) {
    if side == ReadsShort then fill <= price else fill >= price
  }

  // Slippage costs only positions whose side is spelled BUY or reads as short. Any other long, such
  // as LONG, is filled like a sale, below the price. No fill is below zero.
  lemma SlippageCosts(price: real, side: Side, slippagePct: real)
    requires price > 0.0 && slippagePct > 0.0
    ensures 0.0 <= FillPrice(price, side, slippagePct)
    ensures Costs(price, side, FillPrice(price, side, slippagePct)) <==> side == Buy || side == ReadsShort
    ensures side == Buy ==> FillPrice(price, side, slippagePct) == price + price * slippagePct
    ensures side != Buy && slippagePct <= 1.0 ==> FillPrice(price, side, slippagePct) == price - price * slippagePct
  {
    hide Slipped, Slippage;
    ShareOf(price, slippagePct);
    SlippedWithin(price, side, Slippage(price, slippagePct));
  }

  lemma ShareOf(price: real, pct: real)
    requires price > 0.0 && pct > 0.0
    ensures Slippage(price, pct) == price * pct
    ensures 0.0 < Slippage(price, pct) && (pct <= 1.0 ==> Slippage(price, pct) <= price)
  {
    assert Slippage(price, pct) == pct * price;
    MulStrict(0.0, pct, price);
    if pct <= 1.0 {
      MulMono(pct, 1.0, price);
    }
  }

  lemma SlippedWithin(price: real, side: Side, slippage: real)
    requires price > 0.0 && slippage > 0.0
    ensures side == Buy ==> Slipped(price, side, slippage) == price + slippage
    ensures side != Buy ==> 0.0 <= Slipped(price, side, slippage) < price
    ensures side != Buy && slippage <= price ==> Slipped(price, side, slippage) == price - slippage
  {
  }

  // An entry and the exit of the same contract: what the trade earns, whatever the leverage.
  lemma RoundTrip(c: Config, day: int, s: State, a: Action, x: Action, t: Trade)
    requires !Capped(c, s.enters, day) && SimulateFill(c, a, s.counter + 1) == Some(t) && KeyOf(x) == t.symbol
    ensures var after := OnExit(c, OnEnter(c, day, s, a), x);
      var exitPrice := if x.price.Some? then x.price.value else 0.0;
      var move := if a.side == ReadsShort then t.price - exitPrice else exitPrice - t.price;
      && after.cash == s.cash + move * t.quantity - t.fee - Commission(c, exitPrice, t.quantity)
      && after.positions == s.positions - {t.symbol}
  {
    hide Margin, FillPrice, Leverage, KeyOf, Commission;
  }

  // ---------------------------------------------------------------- what an action does

  // The leverage in use.
  predicate Uses(c: Config, leverage: real) {
    leverage == if c.leverage > 0.0 then c.leverage else 10.0
  }

  // Locking so much for a notional amount means the leverage times it is the notional.
  predicate Locks(locked: real, leverage: real, price: real, quantity: real) {
    locked * leverage == price * quantity
  }

  predicate Charges(fee: real, price: real, quantity: real, share: real) {
    fee == price * quantity * share
  }

  // A long earns what the price rises, any other side what it falls, times the quantity.
  predicate Earns(pnl: real, p: Position, price: real) {
    if p.side == Buy || p.side == ReadsLong then pnl == (price - p.entryPrice) * p.quantity
    else pnl == (p.entryPrice - price) * p.quantity
  }

  lemma MoneyIs(c: Config, p: Position, price: real, leverage: real)
    requires Uses(c, leverage)
    ensures Locks(Margin(p, Leverage(c)), leverage, p.entryPrice, p.quantity)
    ensures Charges(Commission(c, price, p.quantity), price, p.quantity, c.commissionPct)
    ensures Earns(PnlOf(p, price), p, price)
  {
    DivMul(p.entryPrice * p.quantity, leverage);
  }

  // An ENTER is filled unless the day has had its entries or there is no contract or no positive price. It
  // then pays the margin and the commission and opens a position at the fill price; otherwise it changes
  // nothing but the counter, and not even that on a full day.
  lemma EntryOutcome(c: Config, day: int, s: State, a: Action, leverage: real)
    requires a.kind == Enter && Uses(c, leverage)
    ensures var after := OnAction(c, day, s, a);
      if c.maxTradesPerDay > 0 && EntersOn(s.enters, day) >= c.maxTradesPerDay then after == s
      else if a.contract.None? || a.price.None? || a.price.value <= 0.0 then after == s.(counter := s.counter + 1)
      else
        && |after.trades| == |s.trades| + 1 && after.trades[..|s.trades|] == s.trades
        && var t := after.trades[|s.trades|];
        && t.id == s.counter + 1 == after.counter && t.symbol == a.contract.value
        && t.price == FillPrice(a.price.value, a.side, c.slippagePct) && t.quantity == a.quantity && t.pnl == 0.0
        && Charges(t.fee, t.price, t.quantity, c.commissionPct)
        && Locks(s.cash - t.fee - after.cash, leverage, t.price, t.quantity)
        && after.positions.Keys == s.positions.Keys + {t.symbol}
        && (forall k :: k in s.positions && k != t.symbol ==> after.positions[k] == s.positions[k])
        && var p := after.positions[t.symbol];
        && p.entryPrice == t.price && p.currentPrice == t.price && p.quantity == t.quantity
        && (p.side == ReadsShort <==> a.side == ReadsShort)
        && EntersOn(after.enters, day) == EntersOn(s.enters, day) + 1
        && (forall d :: d != day ==> EntersOn(after.enters, d) == EntersOn(s.enters, d))
        && after.grossWins == s.grossWins && after.grossLosses == s.grossLosses
  {
    hide Margin, FillPrice, Locks, Charges, Earns, Commission, Leverage;
    if !Capped(c, s.enters, day) && SimulateFill(c, a, s.counter + 1).Some? {
      var t := SimulateFill(c, a, s.counter + 1).value;
      MoneyIs(c, Opened(t, a.side), t.price, leverage);
      assert s.cash - t.fee - OnAction(c, day, s, a).cash == Margin(Opened(t, a.side), Leverage(c));
    }
  }

  // An EXIT closes the position of its contract, or of its symbol if it names no contract, at its price or else
  // at 0, on any day: the margin comes back with the earnings and without the commission.
  lemma ExitOutcome(c: Config, day: int, s: State, a: Action, key: string, leverage: real)
    requires a.kind == Exit && Uses(c, leverage)
    requires key == if a.contract == None || a.contract == Some("") then a.symbol else a.contract.value
    ensures var after := OnAction(c, day, s, a);
      if key !in s.positions then after == s
      else
        && |after.trades| == |s.trades| + 1 && after.trades[..|s.trades|] == s.trades
        && var p, t := s.positions[key], after.trades[|s.trades|];
        && t.id == s.counter + 1 == after.counter && t.symbol == (if a.contract.Some? then a.contract.value else "")
        && t.price == (if a.price.Some? then a.price.value else 0.0) && t.quantity == p.quantity
        && Charges(t.fee, t.price, t.quantity, c.commissionPct) && Earns(t.pnl, p, t.price)
        && Locks(after.cash - s.cash - t.pnl + t.fee, leverage, p.entryPrice, p.quantity)
        && after.positions == s.positions - {key} && after.enters == s.enters
  {
    hide Margin, Locks, Charges, Earns, Commission, PnlOf, Leverage;
    if key in s.positions {
      var p, price := s.positions[key], if a.price.Some? then a.price.value else 0.0;
      MoneyIs(c, p, price, leverage);
      assert OnAction(c, day, s, a).cash - s.cash - PnlOf(p, price) + Commission(c, price, p.quantity)
          == Margin(p, Leverage(c));
    }
  }

  // The actions of a step take effect one after the other, and an idle step changes nothing.
  lemma {:induction false} ActionsFollow(c: Config, day: int, s: State, first: seq<Action>, then_: seq<Action>)
    ensures OnActions(c, day, s, first + then_) == OnActions(c, day, OnActions(c, day, s, first), then_)
    decreases |then_|
  {
    hide OnAction;
    if then_ == [] {
      assert first + then_ == first;
    } else {
      var n := |then_| - 1;
      ActionsFollow(c, day, s, first, then_[..n]);
      assert first + then_ == first + then_[..n] + [then_[n]];
      assert (first + then_)[..|first| + n] == first + then_[..n];
    }
  }

  lemma OneAction(c: Config, day: int, s: State, a: Action)
    ensures OnActions(c, day, s, [a]) == OnAction(c, day, s, a)
  {
    hide OnAction;
    assert [a][..0] == [] && OnActions(c, day, s, []) == s;
  }

  lemma StepsFollow(c: Config, steps: seq<TimeStep>, step: TimeStep)
    ensures var before, after := StateAfter(c, steps), StateAfter(c, steps + [step]);
      if step.actions.None? || step.actions.value == [] then after == before
      else
        var traded := OnActions(c, step.day, before, step.actions.value);
        after == traded.(positions := MarkAll(traded.positions, step.actions.value))
  {
    hide OnActions, MarkAll;
    assert (steps + [step])[..|steps|] == steps;
  }

  // The action gives a price for the position under this key.
  predicate Prices(a: Action, key: string) {
    key != "" && a.price.Some? && key == if a.contract == None || a.contract == Some("") then a.symbol else a.contract.value
  }

  // Marking gives every position the price of the last action that has one for it, and changes nothing else.
  lemma {:induction false} MarkedAtLatest(positions: map<string, Position>, actions: seq<Action>, key: string, i: int)
    requires key in positions && -1 <= i < |actions|
    requires i >= 0 ==> Prices(actions[i], key)
    requires forall j :: i < j < |actions| ==> !Prices(actions[j], key)
    ensures var marked := MarkAll(positions, actions);
      && marked.Keys == positions.Keys
      && marked[key] == positions[key].(
           currentPrice := if i == -1 then positions[key].currentPrice else actions[i].price.value)
  {
    if actions != [] {
      var n := |actions| - 1;
      MarkedKeys(positions, actions[..n]);
      if i == n {
        MarkedElse(positions, actions[..n], key);
      } else {
        MarkedAtLatest(positions, actions[..n], key, i);
      }
    }
  }

  lemma {:induction false} MarkedKeys(positions: map<string, Position>, actions: seq<Action>)
    ensures MarkAll(positions, actions).Keys == positions.Keys
  {
    if actions != [] {
      MarkedKeys(positions, actions[..|actions| - 1]);
    }
  }

  lemma {:induction false} MarkedElse(positions: map<string, Position>, actions: seq<Action>, key: string)
    requires key in positions
    ensures key in MarkAll(positions, actions)
    ensures MarkAll(positions, actions)[key] == positions[key].(currentPrice := MarkAll(positions, actions)[key].currentPrice)
  {
    if actions != [] {
      MarkedElse(positions, actions[..|actions| - 1], key);
    }
  }

  // A marked price moves the equity by the change of price times the quantity.
  lemma MarkMovesEquity(s: State, key: string, price: real)
    requires key in s.positions
    ensures var p := s.positions[key];
      Equity(s.(positions := s.positions[key := p.(currentPrice := price)])) ==
        Equity(s) + price * p.quantity - p.currentPrice * p.quantity
  {
    hide Total;
    TotalPut(s.positions, MarketValue(), key, s.positions[key].(currentPrice := price));
  }

  // ---------------------------------------------------------------- the entry cap

  // No day has more filled entries than the cap, and trade ids are handed out once, in order.
  ghost predicate Orderly(c: Config, s: State) {
    && (c.maxTradesPerDay > 0 ==> forall day :: EntersOn(s.enters, day) <= c.maxTradesPerDay)
    && (forall i :: 0 <= i < |s.trades| ==> 1 <= s.trades[i].id <= s.counter)
    && (forall i, j :: 0 <= i < j < |s.trades| ==> s.trades[i].id < s.trades[j].id)
  }

  lemma EnterKeepsOrder(c: Config, day: int, s: State, a: Action)
    requires Orderly(c, s)
    ensures Orderly(c, OnEnter(c, day, s, a))
  {
    hide Margin, FillPrice, Leverage, Opened;
    var after := OnEnter(c, day, s, a);
    if c.maxTradesPerDay > 0 {
      forall d ensures EntersOn(after.enters, d) <= c.maxTradesPerDay {
        assert EntersOn(s.enters, d) <= c.maxTradesPerDay;
      }
    }
  }

  lemma ExitKeepsOrder(c: Config, s: State, a: Action)
    requires Orderly(c, s)
    ensures Orderly(c, OnExit(c, s, a))
  {
    hide Margin, PnlOf, Leverage, KeyOf;
    assert OnExit(c, s, a).enters == s.enters;
  }

  lemma {:induction false} ActionsKeepOrder(c: Config, day: int, s: State, actions: seq<Action>)
    requires Orderly(c, s)
    ensures Orderly(c, OnActions(c, day, s, actions))
  {
    hide Orderly, OnEnter, OnExit;
    if actions != [] {
      ActionsKeepOrder(c, day, s, actions[..|actions| - 1]);
      EnterKeepsOrder(c, day, OnActions(c, day, s, actions[..|actions| - 1]), actions[|actions| - 1]);
      ExitKeepsOrder(c, OnActions(c, day, s, actions[..|actions| - 1]), actions[|actions| - 1]);
    }
  }

  lemma {:induction false} EntriesAreCapped(c: Config, steps: seq<TimeStep>)
    ensures Orderly(c, StateAfter(c, steps))
  {
    hide OnActions;
    if steps != [] {
      EntriesAreCapped(c, steps[..|steps| - 1]);
      if !Idle(steps[|steps| - 1]) {
        ActionsKeepOrder(c, steps[|steps| - 1].day, StateAfter(c, steps[..|steps| - 1]), steps[|steps| - 1].actions.value);
      }
    }
  }

  // ---------------------------------------------------------------- drawdown

  // The equity after each step that had actions.
  ghost function Curve(c: Config, steps: seq<TimeStep>): seq<real> {
    if steps == [] then []
    else
      var front := Curve(c, steps[..|steps| - 1]);
      if Idle(steps[|steps| - 1]) then front else front + [Equity(StateAfter(c, steps))]
  }

  ghost predicate IsPeak(curve: seq<real>, peak: real) {
    peak in curve && forall i :: 0 <= i < |curve| ==> curve[i] <= peak
  }

  function Drawdown(peak: real, equity: real): real {
    if peak > 0.0 then (peak - equity) / peak else 0.0
  }

  function Peak(curve: seq<real>): real
    requires curve != []
  {
    var n := |curve| - 1;
    if n == 0 then curve[0] else Max(Peak(curve[..n]), curve[n])
  }

  // How far point j lies below the peak of the points before it.
  function DrawdownAt(curve: seq<real>, j: nat): real
    requires 0 < j < |curve|
  {
    Drawdown(Peak(curve[..j]), curve[j])
  }

  // Every step with actions adds a point to the curve: the cash and the market value of the open positions.
  lemma CurveFollows(c: Config, steps: seq<TimeStep>, step: TimeStep)
    ensures var before, s := Curve(c, steps), StateAfter(c, steps + [step]);
      Curve(c, steps + [step]) ==
        if step.actions.None? || step.actions.value == [] then before
        else before + [s.cash + Total(s.positions, MarketValue())]
  {
    hide Total, StateAfter;
    assert (steps + [step])[..|steps|] == steps;
  }

  // d is the greatest drawdown from the peak so far, or zero when no point lies below it.
  ghost predicate IsWorstFromPeak(curve: seq<real>, d: real) {
    && 0.0 <= d
    && (forall j :: 0 < j < |curve| ==> DrawdownAt(curve, j) <= d)
    && (d == 0.0 || exists j :: 0 < j < |curve| && d == DrawdownAt(curve, j))
  }

  // The decline from an earlier point x to a later point y is the share d of x.
  predicate DeclinesBy(x: real, y: real, d: real) {
    x > 0.0 && x - y == d * x
  }

  // Every decline to a non-negative value is at most the share d of where it started.
  predicate WithinDecline(x: real, y: real, d: real) {
    x > 0.0 && y >= 0.0 ==> x - y <= d * x
  }

  ghost predicate AllWithin(curve: seq<real>, d: real) {
    forall i, j :: 0 <= i <= j < |curve| ==> WithinDecline(curve[i], curve[j], d)
  }

  ghost predicate Reached(curve: seq<real>, d: real) {
    exists i, j :: 0 <= i < j < |curve| && DeclinesBy(curve[i], curve[j], d)
  }

  // No decline to a non-negative value is worse than d, and d itself is reached unless it is zero.
  ghost predicate IsMaxDrawdown(curve: seq<real>, d: real) {
    0.0 <= d && AllWithin(curve, d) && (d == 0.0 || Reached(curve, d))
  }

  // From a lower starting point the relative decline to a non-negative value is smaller.
  lemma LowerStart(x: real, peak: real, y: real, d: real)
    requires 0.0 < x <= peak && 0.0 <= y && peak - y <= d * peak && 0.0 <= d
    ensures x - y <= d * x
  {
    if d >= 1.0 {
      MulMono(1.0, d, x);
    } else {
      var rest := 1.0 - d;
      MulSub(1.0, d, peak);
      MulSub(1.0, d, x);
      MulMono(x, peak, rest);
    }
  }

  lemma DrawdownIs(peak: real, equity: real)
    requires peak > 0.0
    ensures peak - equity == Drawdown(peak, equity) * peak
  {
    DivMul(peak - equity, peak);
  }

  lemma {:induction false} PeakIsPeak(curve: seq<real>)
    requires curve != []
    ensures IsPeak(curve, Peak(curve))
  {
    var n := |curve| - 1;
    if n > 0 {
      PeakIsPeak(curve[..n]);
      assert curve == curve[..n] + [curve[n]];
    }
  }

  lemma PeakSnoc(curve: seq<real>, equity: real)
    requires curve != []
    ensures Peak(curve + [equity]) == Max(Peak(curve), equity)
  {
    assert (curve + [equity])[..|curve|] == curve;
  }

  lemma DrawdownAtSnoc(curve: seq<real>, equity: real, j: nat)
    requires 0 < j <= |curve|
    ensures j < |curve| ==> DrawdownAt(curve + [equity], j) == DrawdownAt(curve, j)
    ensures j == |curve| ==> DrawdownAt(curve + [equity], j) == Drawdown(Peak(curve), equity)
  {
    assert (curve + [equity])[..j] == curve[..j];
    assert curve[..|curve|] == curve;
  }

  lemma NoDecline(x: real, d: real)
    requires 0.0 <= d
    ensures WithinDecline(x, x, d)
  {
    if x > 0.0 {
      MulMono(0.0, d, x);
    }
  }

  // The decline to a point from any point before it.
  lemma NewDecline(x: real, peak: real, equity: real, worst: real)
    requires x <= peak
    requires 0.0 <= worst && Drawdown(peak, equity) <= worst
    ensures WithinDecline(x, equity, worst)
  {
    hide Drawdown;
    if x > 0.0 && equity >= 0.0 {
      DrawdownIs(peak, equity);
      MulMono(Drawdown(peak, equity), worst, peak);
      LowerStart(x, peak, equity, worst);
    }
  }

  // One more equity point: the peak before it decides the new drawdown.
  lemma DrawdownStep(curve: seq<real>, d: real, equity: real)
    requires curve != [] && IsWorstFromPeak(curve, d)
    ensures IsWorstFromPeak(curve + [equity], Max(d, Drawdown(Peak(curve), equity)))
  {
    hide Drawdown, DrawdownAt, Peak;
    var longer, worst := curve + [equity], Max(d, Drawdown(Peak(curve), equity));
    forall j | 0 < j < |longer| ensures DrawdownAt(longer, j) <= worst {
      DrawdownAtSnoc(curve, equity, j);
    }
    DrawdownAtSnoc(curve, equity, |curve|);
    if worst == d && d != 0.0 {
      var j :| 0 < j < |curve| && d == DrawdownAt(curve, j);
      DrawdownAtSnoc(curve, equity, j);
    }
  }

  // So is the greatest decline between any two points, as long as it is a decline to a non-negative value.
  lemma {:induction false} WorstIsPairwise(curve: seq<real>, d: real)
    requires curve != [] && IsWorstFromPeak(curve, d)
    ensures IsMaxDrawdown(curve, d)
  {
    hide Drawdown, Peak, WithinDecline, DeclinesBy;
    forall i, j | 0 <= i <= j < |curve| ensures WithinDecline(curve[i], curve[j], d) {
      if i < j {
        PeakIsPeak(curve[..j]);
        assert curve[i] == curve[..j][i];
        assert DrawdownAt(curve, j) <= d;
        NewDecline(curve[i], Peak(curve[..j]), curve[j], d);
      } else {
        NoDecline(curve[i], d);
      }
    }
    if d != 0.0 {
      var j :| 0 < j < |curve| && d == DrawdownAt(curve, j);
      PeakIsPeak(curve[..j]);
      var i: nat :| i < j && curve[..j][i] == Peak(curve[..j]);
      NoPeakNoDrawdown(curve[i], curve[j]);
      DrawdownIs(curve[i], curve[j]);
      DeclineIs(curve[i], curve[j], d);
    }
  }

  lemma DeclineIs(x: real, y: real, d: real)
    requires x > 0.0 && x - y == d * x
    ensures DeclinesBy(x, y, d)
  {
  }

  // A decline to a negative value can be greater from a lower start: from 10 to -50 is six times the start,
  // while the drawdown from the peak of 100 is 1.5.
  lemma NegativeEquityFallsFurther()
    ensures IsWorstFromPeak([100.0, 10.0, -50.0], 1.5) && DeclinesBy(10.0, -50.0, 6.0)
  {
    var curve := [100.0, 10.0, -50.0];
    assert curve[..1] == [100.0] && curve[..2] == [100.0, 10.0] && [100.0, 10.0][..1] == [100.0];
    assert DrawdownAt(curve, 1) == 0.9 && DrawdownAt(curve, 2) == 1.5;
  }

  lemma NoPeakNoDrawdown(peak: real, equity: real)
    ensures Drawdown(peak, equity) != 0.0 ==> peak > 0.0
  {
  }

  // ---------------------------------------------------------------- the simulation loop

  method ComputePositionsValue(positions: map<string, Position>) returns (total: real)
    ensures total == Total(positions, MarketValue())
  {
    hide Total, MarketValue;
    var left := positions;
    total := 0.0;
    NothingOpen();
    while left != map[]
      invariant total + Total(left, MarketValue()) == Total(positions, MarketValue())
      decreases |left|
    {
      var k :| k in left;
      TotalRemove(left, MarketValue(), k);
      total := total + left[k].currentPrice * left[k].quantity;
      WorthIs(left[k]);
      left := left - {k};
    }
  }

  lemma NothingOpen()
    ensures Total(map[], MarketValue()) == 0.0
  {
  }

  lemma WorthIs(p: Position)
    ensures MarketValue()(p) == p.currentPrice * p.quantity
  {
  }

  // One action's effect on the simulation variables.
  method ProcessAction(c: Config, day: int, before: State, a: Action) returns (s: State)
    ensures s == OnAction(c, day, before, a)
  {
    hide Margin, PnlOf, FillPrice, Leverage, Commission, KeyOf, Capped;
    s := before;
    match a.kind {
      case Other =>
      case Enter =>
        if Capped(c, s.enters, day) {
          return;
        }
        s := s.(counter := s.counter + 1);
        var fill := SimulateFill(c, a, s.counter);
        if fill.Some? {
          var t := fill.value;
          s := s.(trades := s.trades + [t]);
          s := s.(enters := s.enters[day := EntersOn(s.enters, day) + 1]);
          if t.symbol in s.positions {
            s := s.(displaced := s.displaced + Margin(s.positions[t.symbol], Leverage(c)));
          }
          s := s.(positions := s.positions[t.symbol := Opened(t, a.side)]);
          s := s.(cash := s.cash - (Margin(Opened(t, a.side), Leverage(c)) + t.fee));
        }
      case Exit =>
        var key := KeyOf(a);
        if key in s.positions {
          var p := s.positions[key];
          s := s.(positions := s.positions - {key});
          s := s.(counter := s.counter + 1);
          var exitPrice := if a.price.Some? then a.price.value else 0.0;
          var pnl := PnlOf(p, exitPrice);
          var commission := Commission(c, exitPrice, p.quantity);
          var symbol := if a.contract.Some? then a.contract.value else "";
          s := s.(trades := s.trades + [Trade(s.counter, symbol, p.quantity, exitPrice, commission, pnl)]);
          s := s.(cash := s.cash + (Margin(p, Leverage(c)) + pnl - commission));
          if pnl > 0.0 {
            s := s.(grossWins := s.grossWins + pnl);
          } else {
            s := s.(grossLosses := s.grossLosses + Abs(pnl));
          }
        }
    }
  }

  // The whole backtest: the ledger it ends with, its equity curve and its greatest drawdown.
  method Run(c: Config, steps: seq<TimeStep>) returns (s: State, curve: seq<real>, maxDrawdown: real)
    ensures s == StateAfter(c, steps) && Conserved(c, s) && Orderly(c, s)
    ensures curve == Curve(c, steps)
    ensures IsWorstFromPeak([c.startingCapital] + curve, maxDrawdown)
    ensures IsMaxDrawdown([c.startingCapital] + curve, maxDrawdown)
  {
    hide Conserved, Orderly, OnAction, Mark, IsWorstFromPeak, IsMaxDrawdown, Drawdown, Total, MarketValue, Peak;
    s, curve, maxDrawdown := Start(c), [], 0.0;
    var peak := c.startingCapital;
    FirstPoint(c.startingCapital);
    assert [c.startingCapital] + [] == [c.startingCapital];
    for n := 0 to |steps|
      invariant s == StateAfter(c, steps[..n]) && curve == Curve(c, steps[..n])
      invariant peak == Peak([c.startingCapital] + curve)
      invariant IsWorstFromPeak([c.startingCapital] + curve, maxDrawdown)
    {
      assert steps[..n + 1][..n] == steps[..n];
      var step := steps[n];
      if step.actions.Some? && step.actions.value != [] {
        var actions := step.actions.value;
        s := ProcessActions(c, step.day, s, actions);
        var marked := MarkActions(s.positions, actions);
        s := s.(positions := marked);
        var value := ComputePositionsValue(s.positions);
        var equity := s.cash + value;
        var drawdown := Drawdown(peak, equity);
        DrawdownStep([c.startingCapital] + curve, maxDrawdown, equity);
        PeakSnoc([c.startingCapital] + curve, equity);
        assert [c.startingCapital] + curve + [equity] == [c.startingCapital] + (curve + [equity]);
        peak := Max(peak, equity);
        maxDrawdown := Max(maxDrawdown, drawdown);
        curve := curve + [equity];
      }
    }
    assert steps[..|steps|] == steps;
    WorstIsPairwise([c.startingCapital] + curve, maxDrawdown);
    MoneyIsConserved(c, steps);
    EntriesAreCapped(c, steps);
  }

  method ProcessActions(c: Config, day: int, before: State, actions: seq<Action>) returns (s: State)
    ensures s == OnActions(c, day, before, actions)
  {
    hide OnAction;
    s := before;
    for i := 0 to |actions|
      invariant s == OnActions(c, day, before, actions[..i])
    {
      assert actions[..i + 1][..i] == actions[..i];
      s := ProcessAction(c, day, s, actions[i]);
    }
    assert actions[..|actions|] == actions;
  }

  method MarkActions(positions: map<string, Position>, actions: seq<Action>) returns (marked: map<string, Position>)
    ensures marked == MarkAll(positions, actions)
  {
    hide Mark;
    marked := positions;
    for i := 0 to |actions|
      invariant marked == MarkAll(positions, actions[..i])
    {
      assert actions[..i + 1][..i] == actions[..i];
      marked := Mark(marked, actions[i]);
    }
    assert actions[..|actions|] == actions;
  }

  lemma FirstPoint(x: real)
    ensures Peak([x]) == x && IsWorstFromPeak([x], 0.0)
  {
  }
}
