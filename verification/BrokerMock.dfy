/** The broker mock's shared state, updated in place by its endpoints. Each method is proved
    against the step of module `Broker` it makes; what runs of those steps promise is proved
    in `BrokerRuns`, `BrokerOrders` and `BrokerWallet`. */
module BrokerMock {
  import opened Basics
  import opened Activities
  import opened Broker
  import opened BrokerOrders

  class MockState {
    var cash: real
    var positions: map<Symbol, Position>
    var orders: map<OrderId, Order>
    var fillPrices: map<Symbol, real>
    var fillDelays: map<Symbol, nat>
    var mode: Mode
    var rotation: nat
    var lostAnswers: nat
    var unauthorized: nat
    var activities: seq<Activity>
    var balances: map<string, real>
    var transfers: seq<Transfer>

    function Value(): State
      reads this
    {
      State(cash, positions, orders, fillPrices, fillDelays, mode, rotation, lostAnswers,
            unauthorized, activities, balances, transfers)
    }

    constructor (fillPrices: map<Symbol, real>, positions: map<Symbol, Position>, initialCash: Option<real>)
      ensures Value() == State(GetOr(initialCash, 100000.0), positions, map[], fillPrices, map[], HappyPath,
                               0, 0, 0, [], map[], [])
    {
      cash := GetOr(initialCash, 100000.0);
      this.positions, orders, this.fillPrices, fillDelays := positions, map[], fillPrices, map[];
      mode, rotation, lostAnswers, unauthorized := HappyPath, 0, 0, 0;
      activities, balances, transfers := [], map[], [];
    }

    method PushActivity(row: NewActivity)
      modifies `activities
      ensures activities == Pushed(old(activities), row)
    {
      var id := ActivityId(|activities| + 1);
      activities := activities + [Activity(id, row.activityType, row.netAmount, row.symbol, row.transactionTime)];
    }

    // ----- fills and polls

    method ApplyFill(id: OrderId, price: real, extent: Extent, now: int) returns (ok: bool)
      requires id in orders
      modifies this
      ensures var t := Broker.ApplyFill(old(Value()), id, price, extent, now);
              ok == t.Some? && Value() == GetOr(t, old(Value()))
    {
      var order := orders[id];
      if !order.status.New? {
        return true;
      }
      var qty := FilledPart(order.quantity, extent);
      var cost := CostOf(order.quantity, price, extent);
      if cost.None? {
        return false;
      }
      orders := orders[id := FilledOrder(order, price, extent)];
      PushActivity(FeeRow(order.symbol, now));
      SettleFill(order, qty, cost.value);
      ok := true;
    }

    /** Moves cash against the symbol's position, opening one at zero first. */
    method SettleFill(order: Order, qty: real, cost: real)
      modifies `cash, `positions
      ensures Value() == Settle(old(Value()), order, qty, cost)
    {
      if order.symbol !in positions {
        positions := positions[order.symbol := Position(0.0, 0.0)];
      }
      var position := positions[order.symbol];
      match order.side {
        case Buy =>
          cash := cash - cost;
          position := Position(position.quantity + qty, position.marketValue + cost);
        case Sell =>
          cash := cash + cost;
          position := Position(position.quantity - qty, position.marketValue - cost);
      }
      positions := positions[order.symbol := position];
    }

    method FillAtPrice(id: OrderId, extent: Extent, now: int) returns (ok: bool)
      requires id in orders
      modifies this
      ensures var t := Broker.FillAtPrice(old(Value()), id, extent, now);
              ok == t.Some? && Value() == GetOr(t, old(Value()))
    {
      var symbol := orders[id].symbol;
      if symbol !in fillPrices {
        return false;
      }
      ok := ApplyFill(id, fillPrices[symbol], extent, now);
    }

    method AdvancePolledOrder(id: OrderId, now: int) returns (ok: bool)
      requires id in orders
      modifies this
      ensures var t := Broker.AdvancePolledOrder(old(Value()), id, now);
              ok == t.Some? && Value() == GetOr(t, old(Value()))
    {
      var order := orders[id];
      ok := true;
      match PollMode(mode, order.plan) {
        case HappyPath =>
          var delay := if order.symbol in fillDelays then fillDelays[order.symbol] else 0;
          if order.pollCount >= delay { ok := FillAtPrice(id, Full, now); }
        case DelayedFill(polls) =>
          if order.pollCount >= polls { ok := FillAtPrice(id, Full, now); }
        case OrderRejected =>
          orders := orders[id := order.(status := Rejected)];
        case PartialFillThenCancel =>
          if order.status.New? {
            ok := FillAtPrice(id, Half, now);
          } else {
            orders := orders[id := order.(status := Canceled)];
          }
        case PlacementFails | RotatingOutcomes =>
      }
    }

    /** The status endpoint; `None` is 404, a failed advance answers 500. */
    method PollOrder(id: OrderId, now: int) returns (answer: Option<Option<Order>>)
      modifies this
      ensures Value() == Poll(old(Value()), id, now)
      ensures answer.None? <==> id !in old(orders)
      ensures answer.Some? && answer.value.Some? ==> id in orders && answer.value.value == orders[id]
    {
      if id !in orders {
        return None;
      }
      orders := orders[id := orders[id].(pollCount := orders[id].pollCount + 1)];
      assert Value() == Counted(old(Value()), id);
      var ok := AdvancePolledOrder(id, now);
      if ok {
        PollKeepsKeys(old(Value()), id, now);
      }
      answer := Some(if ok then Some(orders[id]) else None);
    }

    // ----- placement

    method PlaceOrder(id: OrderId, r: Request) returns (answer: Answer)
      requires id !in orders
      modifies this
      ensures Answered(Value(), answer) == Place(old(Value()), id, r)
    {
      if unauthorized > 0 {
        unauthorized := unauthorized - 1;
        return Unauthorized;
      }
      if mode.PlacementFails? {
        return PlacementRefused;
      }
      if r.symbol == USDCUSD {
        answer := HandleCryptoOrder(id, r.sizing, r.side);
        return;
      }
      if r.sizing.Notional? {
        return NotionalUnsupported;
      }
      if r.clientOrderId.Some? && Taken(Value(), r.clientOrderId.value) {
        return DuplicateClientOrderId;
      }
      var plan := None;
      if mode.RotatingOutcomes? {
        plan := Some(PlanAt(rotation));
        rotation := (rotation + 1) % 3;
      }
      orders := orders[id := Order(r.symbol, r.sizing.amount, None, r.side, New, 0.0, 0, None, r.clientOrderId, plan)];
      if lostAnswers > 0 {
        lostAnswers := lostAnswers - 1;
        return RecordedThenLost;
      }
      answer := Accepted;
    }

    /** The lookup endpoint: an order with that client order id, and with unique ids the one. */
    method OrderByClientId(clientId: string) returns (found: Option<OrderId>)
      ensures found.None? <==> !Taken(Value(), clientId)
      ensures found.Some? ==> Carries(Value(), found.value, clientId)
      ensures found.Some? && UniqueClientIds(Value()) ==>
                forall id :: Carries(Value(), id, clientId) ==> id == found.value
    {
      if Taken(Value(), clientId) {
        var id :| id in orders && orders[id].clientOrderId == Some(clientId);
        assert forall other :: Carries(Value(), other, clientId) ==> SameClientId(orders[id], orders[other]);
        found := Some(id);
      } else {
        found := None;
      }
    }

    method HandleCryptoOrder(id: OrderId, sizing: Sizing, side: Side) returns (answer: Answer)
      requires id !in orders
      modifies this
      ensures Answered(Value(), answer) == Convert(old(Value()), id, sizing, side)
    {
      var q := sizing.amount;
      if q < 0.0 {
        return ArithmeticError;
      }
      if !Quantized(sizing) {
        return BadSize;
      }
      var cashDelta := Cents(q).value;
      var updated := if side.Buy? then Usdc(Value()) + q else Usdc(Value()) - q;
      if updated < 0.0 {
        return InsufficientUsdc;
      }
      cash := if side.Buy? then cash - cashDelta else cash + cashDelta;
      balances := balances[USDC := updated];
      var notional := if sizing.Notional? then Some(q) else None;
      orders := orders[id := Order(USDCUSD, q, notional, side, Filled, q, 0, Some(1.0), None, None)];
      answer := Accepted;
    }

    // ----- wallet transfers

    method SubtractWalletBalance(asset: string, amount: real) returns (enough: bool)
      modifies `balances
      ensures enough <==> BalanceOf(old(Value()), asset) >= amount
      ensures balances == if enough then old(balances)[asset := BalanceOf(old(Value()), asset) - amount]
                          else old(balances)
    {
      var updated := BalanceOf(Value(), asset) - amount;
      if updated < 0.0 {
        return false;
      }
      balances := balances[asset := updated];
      enough := true;
    }

    method PostTransfer(asset: string, amount: real) returns (answer: Answer)
      modifies `balances, `transfers
      ensures Answered(Value(), answer) == Withdraw(old(Value()), asset, amount)
    {
      var enough := SubtractWalletBalance(asset, amount);
      if !enough {
        return InsufficientBalance;
      }
      transfers := transfers + [Transfer(Outgoing, amount, asset, Pending, "", 0, 2)];
      answer := Accepted;
    }

    /** The transfer list endpoint advances every transfer it reports. */
    method ListTransfers() returns (listed: seq<Transfer>)
      modifies `transfers
      ensures Value() == PollTransfers(old(Value())) && listed == transfers
    {
      var i := 0;
      while i < |transfers|
        invariant 0 <= i <= |transfers| == |old(transfers)|
        invariant forall j :: 0 <= j < i ==> transfers[j] == AdvanceTransfer(old(transfers)[j])
        invariant forall j :: i <= j < |transfers| ==> transfers[j] == old(transfers)[j]
      {
        transfers := transfers[i := AdvanceTransfer(transfers[i])];
        i := i + 1;
      }
      listed := transfers;
    }
  }

  lemma PollKeepsKeys(s: State, id: OrderId, now: int)
    requires id in s.orders
    ensures id in Poll(s, id, now).orders
  {
    PollOrders(s, id, now);
  }
}
