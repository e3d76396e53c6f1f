/** What every run of the broker mock conserves and never does twice. */
module BrokerRuns {
  import opened Basics
  import opened Activities
  import opened Totals
  import opened Broker

  // ----- quantities the laws are about

  predicate Executed(o: Order) { o.filledPrice.Some? }

  /** What an order added to its symbol's position. */
  function SignedFill(o: Order, symbol: Symbol): real {
    if o.symbol != symbol then 0.0
    else if o.side.Buy? then o.filledQuantity else -o.filledQuantity
  }

  function FillMap(orders: map<OrderId, Order>, symbol: Symbol): map<OrderId, real> {
    map id | id in orders :: SignedFill(orders[id], symbol)
  }

  function ValueMap(positions: map<Symbol, Position>): map<Symbol, real> {
    map x | x in positions :: positions[x].marketValue
  }

  /** The signed filled quantities of all orders in `symbol`. */
  ghost function NetFills(orders: map<OrderId, Order>, symbol: Symbol): real {
    Total(FillMap(orders, symbol))
  }

  ghost function MarketValue(positions: map<Symbol, Position>): real {
    Total(ValueMap(positions))
  }

  ghost function Fills(orders: map<OrderId, Order>, symbol: Symbol): set<OrderId> {
    set id | id in orders && orders[id].symbol == symbol && Executed(orders[id])
  }

  /** The number of fee rows booked for `symbol`. */
  ghost function FeeRows(rows: seq<Activity>, symbol: Symbol): nat {
    if rows == [] then 0
    else FeeRows(rows[..|rows| - 1], symbol) + if IsFeeFor(rows[|rows| - 1], symbol) then 1 else 0
  }

  predicate IsFeeFor(row: Activity, symbol: Symbol) {
    row.activityType == "FEE" && row.netAmount == "-0.1" && row.symbol == Some(symbol)
  }

  /** A new order has executed nothing; an executed one recorded what and at which price. */
  ghost predicate OrdersOk(s: State) {
    forall id <- s.orders :: s.orders[id].status.New? || !Executed(s.orders[id]) ==>
      s.orders[id].filledQuantity == 0.0 && !Executed(s.orders[id])
  }

  // ----- one fill

  lemma NetFillsUpdate(orders: map<OrderId, Order>, id: OrderId, o: Order, symbol: Symbol)
    ensures NetFills(orders[id := o], symbol) ==
            NetFills(orders, symbol) + SignedFill(o, symbol)
              - (if id in orders then SignedFill(orders[id], symbol) else 0.0)
  {
    TotalUpdate(FillMap(orders, symbol), id, SignedFill(o, symbol));
    var after := orders[id := o];
    assert FillMap(orders, symbol)[id := SignedFill(o, symbol)] == FillMap(after, symbol);
  }

  lemma MarketValueUpdate(positions: map<Symbol, Position>, x: Symbol, p: Position)
    ensures MarketValue(positions[x := p]) ==
            MarketValue(positions) - (if x in positions then positions[x].marketValue else 0.0) + p.marketValue
  {
    TotalUpdate(ValueMap(positions), x, p.marketValue);
    var after := positions[x := p];
    assert ValueMap(positions)[x := p.marketValue] == ValueMap(after);
  }

  /** The laws, as differences a step must not change. */
  ghost predicate SameBooks(s: State, t: State) {
    && s.cash + MarketValue(s.positions) == t.cash + MarketValue(t.positions)
    && SameLedgers(s, t)
  }

  ghost predicate SameLedgers(s: State, t: State) {
    forall x: Symbol :: x != USDCUSD ==> SamePosition(s, t, x) && SameFees(s, t, x)
  }

  ghost predicate SamePosition(s: State, t: State, x: Symbol) {
    PositionOf(s, x).quantity - NetFills(s.orders, x) == PositionOf(t, x).quantity - NetFills(t.orders, x)
  }

  ghost predicate SameFees(s: State, t: State, x: Symbol) {
    FeeRows(s.activities, x) - |Fills(s.orders, x)| == FeeRows(t.activities, x) - |Fills(t.orders, x)|
  }

  lemma SettleConserves(s: State, o: Order, qty: real, cost: real)
    ensures var t := Settle(s, o, qty, cost);
            && t.cash + MarketValue(t.positions) == s.cash + MarketValue(s.positions)
            && PositionOf(t, o.symbol).quantity ==
                 PositionOf(s, o.symbol).quantity + (if o.side.Buy? then qty else -qty)
  {
    var p := PositionOf(s, o.symbol);
    if o.side.Buy? {
      MarketValueUpdate(s.positions, o.symbol, Position(p.quantity + qty, p.marketValue + cost));
    } else {
      MarketValueUpdate(s.positions, o.symbol, Position(p.quantity - qty, p.marketValue - cost));
    }
  }

  lemma FillsUpdate(orders: map<OrderId, Order>, id: OrderId, o: Order, x: Symbol)
    requires id in orders ==> orders[id].symbol == o.symbol && !Executed(orders[id])
    ensures |Fills(orders[id := o], x)| == |Fills(orders, x)| + if o.symbol == x && Executed(o) then 1 else 0
  {
    if o.symbol == x && Executed(o) {
      assert id !in Fills(orders, x);
      assert Fills(orders[id := o], x) == Fills(orders, x) + {id};
    } else {
      assert Fills(orders[id := o], x) == Fills(orders, x);
    }
  }

  lemma FeeRowsPushed(rows: seq<Activity>, row: NewActivity, x: Symbol)
    ensures FeeRows(Pushed(rows, row), x) ==
            FeeRows(rows, x) +
            if row.activityType == "FEE" && row.netAmount == "-0.1" && row.symbol == Some(x) then 1 else 0
  {
    assert Pushed(rows, row)[..|rows|] == rows;
  }

  lemma SettledFillConserves(s: State, id: OrderId, filled: Order, cost: real, now: int)
    requires OrdersOk(s) && id in s.orders && s.orders[id].status.New?
    requires filled.symbol == s.orders[id].symbol && filled.side == s.orders[id].side
    requires Executed(filled) && !filled.status.New?
    ensures var t := Settle(Booked(s, id, filled, now), s.orders[id], filled.filledQuantity, cost);
            SameBooks(s, t) && OrdersOk(t)
  {
    var o := s.orders[id];
    var b := Booked(s, id, filled, now);
    var t := Settle(b, o, filled.filledQuantity, cost);
    SettleConserves(b, o, filled.filledQuantity, cost);
    forall x: Symbol ensures SamePosition(s, t, x) && SameFees(s, t, x) {
      NetFillsUpdate(s.orders, id, filled, x);
      FillsUpdate(s.orders, id, filled, x);
      FeeRowsPushed(s.activities, FeeRow(o.symbol, now), x);
    }
  }

  /** One fill moves money between cash and a position, adds its signed quantity to that
      position and books one fee row. */
  lemma FillConserves(s: State, id: OrderId, price: real, extent: Extent, now: int)
    requires OrdersOk(s) && id in s.orders
    requires ApplyFill(s, id, price, extent, now).Some?
    ensures var t := ApplyFill(s, id, price, extent, now).value;
            SameBooks(s, t) && OrdersOk(t)
  {
    var o := s.orders[id];
    if o.status.New? {
      SettledFillConserves(s, id, FilledOrder(o, price, extent), CostOf(o.quantity, price, extent).value, now);
    }
  }

  // ----- every step

  /** Replacing an order by one with the same symbol, side and fill touches no law. */
  lemma RewriteConserves(s: State, id: OrderId, o: Order)
    requires OrdersOk(s) && id in s.orders
    requires var was := s.orders[id];
             o == was.(status := o.status, pollCount := o.pollCount) && (o.status.New? ==> was.status.New?)
    ensures var t := s.(orders := s.orders[id := o]); SameBooks(s, t) && OrdersOk(t)
  {
    var t := s.(orders := s.orders[id := o]);
    forall x: Symbol ensures SamePosition(s, t, x) && SameFees(s, t, x) {
      NetFillsUpdate(s.orders, id, o, x);
      assert Fills(t.orders, x) == Fills(s.orders, x);
    }
  }

  lemma SameLedgersTransitive(s: State, t: State, u: State)
    requires SameLedgers(s, t) && SameLedgers(t, u)
    ensures SameLedgers(s, u)
  {
    forall x: Symbol | x != USDCUSD ensures SamePosition(s, u, x) && SameFees(s, u, x) {
      assert SamePosition(s, t, x) && SamePosition(t, u, x) && SameFees(s, t, x) && SameFees(t, u, x);
    }
  }

  lemma AdvanceConserves(s: State, id: OrderId, now: int)
    requires OrdersOk(s) && id in s.orders && AdvancePolledOrder(s, id, now).Some?
    ensures var t := AdvancePolledOrder(s, id, now).value;
            SameBooks(s, t) && OrdersOk(t) && t.balances == s.balances
  {
    var t, o := AdvancePolledOrder(s, id, now).value, s.orders[id];
    if t != s {
      var mode := PollMode(s.mode, o.plan);
      if mode.OrderRejected? {
        RewriteConserves(s, id, o.(status := Rejected));
      } else if mode.PartialFillThenCancel? && !o.status.New? {
        RewriteConserves(s, id, o.(status := Canceled));
      } else {
        FillConserves(s, id, s.fillPrices[o.symbol], if mode.PartialFillThenCancel? then Half else Full, now);
      }
    }
  }

  lemma PollConserves(s: State, id: OrderId, now: int)
    requires OrdersOk(s)
    ensures var t := Poll(s, id, now); SameBooks(s, t) && OrdersOk(t) && t.balances == s.balances
  {
    if id in s.orders {
      var c := Counted(s, id);
      RewriteConserves(s, id, c.orders[id]);
      if AdvancePolledOrder(c, id, now).Some? {
        AdvanceConserves(c, id, now);
        SameLedgersTransitive(s, c, AdvancePolledOrder(c, id, now).value);
      }
    }
  }

  lemma InsertConserves(s: State, id: OrderId, o: Order)
    requires OrdersOk(s) && id !in s.orders
    requires || (o.symbol == USDCUSD && Executed(o) && !o.status.New?)
             || (o.status.New? && o.filledQuantity == 0.0 && !Executed(o))
    ensures var t := s.(orders := s.orders[id := o]); SameBooks(s, t) && OrdersOk(t)
  {
    var t := s.(orders := s.orders[id := o]);
    forall x: Symbol | x != USDCUSD ensures SamePosition(s, t, x) && SameFees(s, t, x) {
      NetFillsUpdate(s.orders, id, o, x);
      FillsUpdate(s.orders, id, o, x);
    }
  }

  /** An accepted USDCUSD order. */
  predicate IsConversion(s: State, a: Action) {
    && a.PlaceOrder? && a.id !in s.orders && a.request.symbol == USDCUSD
    && Place(s, a.id, a.request).answer.Accepted?
  }

  /** The laws read cash, positions, orders and activities only. */
  lemma LedgersReadNothingElse(s: State, t: State, u: State)
    requires SameLedgers(s, t)
    requires u.positions == t.positions && u.orders == t.orders && u.activities == t.activities
    ensures SameLedgers(s, u)
  {
    forall x: Symbol | x != USDCUSD ensures SamePosition(s, u, x) && SameFees(s, u, x) {
      assert SamePosition(s, t, x) && SameFees(s, t, x);
    }
  }

  lemma ConvertKeepsLedgers(s: State, id: OrderId, sizing: Sizing, side: Side)
    requires OrdersOk(s) && id !in s.orders
    ensures var r := Convert(s, id, sizing, side);
            && SameLedgers(s, r.state) && OrdersOk(r.state)
            && r.state.positions == s.positions && (r.answer.Accepted? || r.state == s)
  {
    var t := Convert(s, id, sizing, side).state;
    if t != s {
      InsertConserves(s, id, t.orders[id]);
      LedgersReadNothingElse(s, s.(orders := s.orders[id := t.orders[id]]), t);
    }
  }

  lemma PlaceConserves(s: State, id: OrderId, r: Request)
    requires OrdersOk(s) && id !in s.orders
    ensures var t := Place(s, id, r).state;
            && SameLedgers(s, t) && OrdersOk(t)
            && (IsConversion(s, PlaceOrder(id, r)) || (SameBooks(s, t) && t.balances == s.balances))
  {
    var t := Place(s, id, r).state;
    if s.unauthorized > 0 || s.mode.PlacementFails? {
      LedgersReadNothingElse(s, s, t);
    } else if r.symbol == USDCUSD {
      ConvertKeepsLedgers(s, id, r.sizing, r.side);
    } else if t != s {
      InsertConserves(s, id, NewOrder(s, r));
      LedgersReadNothingElse(s, s.(orders := s.orders[id := NewOrder(s, r)]), t);
    }
  }

  lemma StepConserves(s: State, a: Action)
    requires OrdersOk(s)
    ensures SameLedgers(s, Step(s, a)) && OrdersOk(Step(s, a))
    ensures !IsConversion(s, a) ==> SameBooks(s, Step(s, a))
  {
    match a {
      case PlaceOrder(id, request) => if id !in s.orders { PlaceConserves(s, id, request); }
      case PollOrder(id, at) => PollConserves(s, id, at);
      case _ => LedgersReadNothingElse(s, s, Step(s, a));
    }
  }

  // ----- whole runs: positions, fees and cash

  lemma {:induction false} RunKeepsLedgers(s: State, actions: seq<Action>)
    requires OrdersOk(s)
    ensures SameLedgers(s, Run(s, actions)) && OrdersOk(Run(s, actions))
  {
    if actions != [] {
      var before := Run(s, actions[..|actions| - 1]);
      RunKeepsLedgers(s, actions[..|actions| - 1]);
      StepConserves(before, actions[|actions| - 1]);
      SameLedgersTransitive(s, before, Run(s, actions));
    }
  }

  /** Every position is where it started plus the signed fills of its orders, and its fee
      rows are as many as its executed orders, from any start without orders or fees. */
  lemma PositionsAreStartPlusFills(s: State, actions: seq<Action>, x: Symbol)
    requires s.orders == map[] && s.activities == [] && x != USDCUSD
    ensures var t := Run(s, actions);
            && PositionOf(t, x).quantity == PositionOf(s, x).quantity + NetFills(t.orders, x)
            && FeeRows(t.activities, x) == |Fills(t.orders, x)|
  {
    RunKeepsLedgers(s, actions);
    TotalOfZeros(FillMap(s.orders, x));
    assert Fills(s.orders, x) == {};
    assert SamePosition(s, Run(s, actions), x) && SameFees(s, Run(s, actions), x);
  }

  /** The number of conversions accepted in a run. */
  ghost function Conversions(s: State, actions: seq<Action>): nat {
    if actions == [] then 0
    else
      var front, last := actions[..|actions| - 1], actions[|actions| - 1];
      Conversions(s, front) + if IsConversion(Run(s, front), last) then 1 else 0
  }

  /** Equity trading moves money between cash and positions and makes or loses none. */
  lemma {:induction false} EquityTradingKeepsCashPlusPositions(s: State, actions: seq<Action>)
    requires OrdersOk(s) && Conversions(s, actions) == 0
    ensures var t := Run(s, actions);
            t.cash + MarketValue(t.positions) == s.cash + MarketValue(s.positions)
  {
    if actions != [] {
      var front := actions[..|actions| - 1];
      EquityTradingKeepsCashPlusPositions(s, front);
      RunKeepsLedgers(s, front);
      StepConserves(Run(s, front), actions[|actions| - 1]);
    }
  }
}
