/** Where the cash went: over every run, cash is what it was at the start less the whole-cent
    cost of everything executed, conversions included. */
module BrokerCash {
  import opened Basics
  import opened Totals
  import opened Broker
  import opened BrokerRuns

  /** The whole-cent value of `quantity` at `price`. */
  function InCents(quantity: real, price: real): real {
    GetOr(Cents(Worth(quantity, price)), 0.0)
  }

  /** What an order took out of cash: a buy its cost, a sell less its proceeds. */
  function CashOut(o: Order): real {
    if !Executed(o) then 0.0
    else
      var cost := InCents(o.filledQuantity, o.filledPrice.value);
      if o.side.Buy? then cost else -cost
  }

  function CashOutMap(orders: map<OrderId, Order>): map<OrderId, real> {
    map id | id in orders :: CashOut(orders[id])
  }

  ghost function Spent(orders: map<OrderId, Order>): real { Total(CashOutMap(orders)) }

  lemma SpentUpdate(orders: map<OrderId, Order>, id: OrderId, o: Order)
    ensures Spent(orders[id := o]) == Spent(orders) - (if id in orders then CashOut(orders[id]) else 0.0) + CashOut(o)
  {
    TotalUpdate(CashOutMap(orders), id, CashOut(o));
    var after := orders[id := o];
    assert CashOutMap(orders)[id := CashOut(o)] == CashOutMap(after);
  }

  ghost predicate SameCash(s: State, t: State) { s.cash + Spent(s.orders) == t.cash + Spent(t.orders) }

  lemma FillKeepsCash(s: State, id: OrderId, price: real, extent: Extent, now: int)
    requires OrdersOk(s) && id in s.orders && ApplyFill(s, id, price, extent, now).Some?
    ensures SameCash(s, ApplyFill(s, id, price, extent, now).value)
  {
    var o := s.orders[id];
    if o.status.New? {
      var filled := FilledOrder(o, price, extent);
      SpentUpdate(s.orders, id, filled);
      assert CostOf(o.quantity, price, extent) == Some(InCents(filled.filledQuantity, price));
    }
  }

  lemma RewriteKeepsCash(s: State, id: OrderId, status: Status, pollCount: nat)
    requires id in s.orders
    ensures SameCash(s, s.(orders := s.orders[id := s.orders[id].(status := status, pollCount := pollCount)]))
  {
    SpentUpdate(s.orders, id, s.orders[id].(status := status, pollCount := pollCount));
  }

  lemma PollKeepsCash(s: State, id: OrderId, now: int)
    requires OrdersOk(s)
    ensures SameCash(s, Poll(s, id, now))
  {
    if id in s.orders {
      var c := Counted(s, id);
      var o := c.orders[id];
      RewriteKeepsCash(s, id, o.status, o.pollCount);
      RewriteConserves(s, id, o);
      var t := AdvancePolledOrder(c, id, now);
      if t.Some? && t.value != c {
        var mode := PollMode(c.mode, o.plan);
        if mode.OrderRejected? {
          RewriteKeepsCash(c, id, Rejected, o.pollCount);
        } else if mode.PartialFillThenCancel? && !o.status.New? {
          RewriteKeepsCash(c, id, Canceled, o.pollCount);
        } else {
          FillKeepsCash(c, id, c.fillPrices[o.symbol], if mode.PartialFillThenCancel? then Half else Full, now);
        }
      }
    }
  }

  lemma ConvertKeepsCash(s: State, id: OrderId, sizing: Sizing, side: Side)
    requires id !in s.orders
    ensures SameCash(s, Convert(s, id, sizing, side).state)
  {
    var t := Convert(s, id, sizing, side).state;
    if t != s {
      SpentUpdate(s.orders, id, t.orders[id]);
      assert Worth(sizing.amount, 1.0) == sizing.amount;
    }
  }

  lemma PlaceKeepsCash(s: State, id: OrderId, r: Request)
    requires id !in s.orders
    ensures SameCash(s, Place(s, id, r).state)
  {
    if r.symbol == USDCUSD {
      ConvertKeepsCash(s, id, r.sizing, r.side);
    } else {
      SpentUpdate(s.orders, id, NewOrder(s, r));
    }
  }

  lemma StepKeepsCash(s: State, a: Action)
    requires OrdersOk(s)
    ensures SameCash(s, Step(s, a))
  {
    match a {
      case PlaceOrder(id, request) => if id !in s.orders { PlaceKeepsCash(s, id, request); }
      case PollOrder(id, at) => PollKeepsCash(s, id, at);
      case _ =>
    }
  }

  /** From any start without orders, cash is the starting cash less, for every executed order,
      its filled quantity times its fill price cut to whole cents: minus on a buy, plus on a
      sell. */
  lemma {:induction false} CashIsStartLessExecutedOrders(s: State, actions: seq<Action>)
    requires s.orders == map[]
    ensures var t := Run(s, actions); t.cash == s.cash - Spent(t.orders)
  {
    if actions == [] {
      TotalOfZeros(CashOutMap(s.orders));
    } else {
      var front := actions[..|actions| - 1];
      CashIsStartLessExecutedOrders(s, front);
      RunKeepsLedgers(s, front);
      StepKeepsCash(Run(s, front), actions[|actions| - 1]);
    }
  }
}
