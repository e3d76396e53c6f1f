/** The life of orders over whole runs of the broker mock: each executes at most once, client
    order ids stay unique, and rotating outcomes are handed out evenly and kept. */
module BrokerOrders {
  import opened Basics
  import opened Broker

  // ----- one order's life

  /** What may change of an order: it leaves `New` for good, and once executed its fill is
      final. Its terms and identity never change. */
  predicate LivesOn(o: Order, later: Order) {
    && later == o.(status := later.status, filledQuantity := later.filledQuantity,
                   filledPrice := later.filledPrice, pollCount := later.pollCount)
    && (!o.status.New? ==>
          !later.status.New? && later.filledQuantity == o.filledQuantity && later.filledPrice == o.filledPrice)
    && o.pollCount <= later.pollCount
  }

  ghost predicate OrdersLiveOn(s: State, t: State) {
    forall id <- s.orders :: id in t.orders && LivesOn(s.orders[id], t.orders[id])
  }

  /** All a step does to the orders: nothing, or one order lives on under a poll, or one
      new order is recorded by a placement. */
  ghost predicate OrdersStep(s: State, a: Action, t: State) {
    || t.orders == s.orders
    || (a.PollOrder? && a.id in s.orders && a.id in t.orders
        && t.orders == s.orders[a.id := t.orders[a.id]] && LivesOn(s.orders[a.id], t.orders[a.id]))
    || (a.PlaceOrder? && a.id !in s.orders && a.id in t.orders
        && t.orders == s.orders[a.id := t.orders[a.id]] && MayRecord(s, a.request, t.orders[a.id]))
  }

  /** A recorded equity order is the requested one and its client order id was free; a
      conversion carries neither a client order id nor a plan. */
  predicate MayRecord(s: State, r: Request, o: Order) {
    || (o == NewOrder(s, r) && (r.clientOrderId.Some? ==> !Taken(s, r.clientOrderId.value)))
    || (o.symbol == USDCUSD && o.clientOrderId.None? && o.plan.None?)
  }

  lemma FillOrders(s: State, id: OrderId, price: real, extent: Extent, now: int)
    requires id in s.orders && ApplyFill(s, id, price, extent, now).Some?
    ensures var t := ApplyFill(s, id, price, extent, now).value;
            && t.orders == s.orders[id := if s.orders[id].status.New? then FilledOrder(s.orders[id], price, extent)
                                          else s.orders[id]]
            && t.rotation == s.rotation
  {
  }

  /** Only order `id` changed, and it lives on. */
  ghost predicate OneLivesOn(s: State, id: OrderId, t: State) {
    && id in s.orders && id in t.orders && t.orders == s.orders[id := t.orders[id]]
    && LivesOn(s.orders[id], t.orders[id])
    && t.rotation == s.rotation
  }

  lemma PricedFillOrders(s: State, id: OrderId, extent: Extent, now: int)
    requires id in s.orders && FillAtPrice(s, id, extent, now).Some?
    ensures OneLivesOn(s, id, FillAtPrice(s, id, extent, now).value)
  {
    FillOrders(s, id, s.fillPrices[s.orders[id].symbol], extent, now);
  }

  lemma StatusOrders(s: State, id: OrderId, status: Status)
    requires id in s.orders && !status.New?
    ensures OneLivesOn(s, id, WithStatus(s, id, status)) && OneLivesOn(s, id, s)
  {
  }

  lemma AdvanceOrders(s: State, id: OrderId, now: int, t: State)
    requires id in s.orders && AdvancePolledOrder(s, id, now) == Some(t)
    ensures OneLivesOn(s, id, t)
  {
    StatusOrders(s, id, Rejected);
    StatusOrders(s, id, Canceled);
    if FillAtPrice(s, id, Full, now).Some? { PricedFillOrders(s, id, Full, now); }
    if FillAtPrice(s, id, Half, now).Some? { PricedFillOrders(s, id, Half, now); }
  }

  lemma PollOrders(s: State, id: OrderId, now: int)
    requires id in s.orders
    ensures OneLivesOn(s, id, Poll(s, id, now))
  {
    var c := Counted(s, id);
    if AdvancePolledOrder(c, id, now).Some? {
      var t := AdvancePolledOrder(c, id, now).value;
      AdvanceOrders(c, id, now, t);
      assert s.orders[id := c.orders[id]][id := t.orders[id]] == s.orders[id := t.orders[id]];
    }
  }

  lemma ConvertOrders(s: State, id: OrderId, sizing: Sizing, side: Side)
    ensures var t := Convert(s, id, sizing, side).state;
            && t.rotation == s.rotation
            && (t.orders == s.orders ||
                (&& id in t.orders && t.orders == s.orders[id := t.orders[id]]
                 && t.orders[id].symbol == USDCUSD && t.orders[id].clientOrderId.None? && t.orders[id].plan.None?))
  {
  }

  lemma PlaceOrders(s: State, id: OrderId, r: Request)
    requires id !in s.orders
    ensures var t := Place(s, id, r).state;
            || (t.orders == s.orders && t.rotation == s.rotation)
            || (&& id in t.orders && t.orders == s.orders[id := t.orders[id]] && MayRecord(s, r, t.orders[id])
                && t.rotation == if t.orders[id].plan.Some? then (s.rotation + 1) % 3 else s.rotation)
  {
    ConvertOrders(s, id, r.sizing, r.side);
  }

  lemma StepOrders(s: State, a: Action)
    ensures OrdersStep(s, a, Step(s, a))
  {
    match a {
      case PlaceOrder(id, request) => if id !in s.orders { PlaceOrders(s, id, request); }
      case PollOrder(id, at) => if id in s.orders { PollOrders(s, id, at); }
      case _ =>
    }
  }

  lemma OrdersStepLivesOn(s: State, a: Action, t: State)
    requires OrdersStep(s, a, t)
    ensures OrdersLiveOn(s, t)
  {
  }

  /** An order executes at most once and never returns to `New`: between any two points of a
      run it only lives on. */
  lemma {:induction false} OrdersExecuteAtMostOnce(s: State, actions: seq<Action>, k: nat)
    requires k <= |actions|
    ensures OrdersLiveOn(Run(s, actions[..k]), Run(s, actions))
  {
    if k == |actions| {
      assert actions[..k] == actions;
    } else {
      var front := actions[..|actions| - 1];
      OrdersExecuteAtMostOnce(s, front, k);
      assert front[..k] == actions[..k];
      StepOrders(Run(s, front), actions[|actions| - 1]);
      OrdersStepLivesOn(Run(s, front), actions[|actions| - 1], Run(s, actions));
    }
  }

  // ----- client order ids

  predicate SameClientId(o: Order, p: Order) {
    o.clientOrderId.Some? && o.clientOrderId == p.clientOrderId
  }

  ghost predicate UniqueClientIds(s: State) {
    forall i, j :: i in s.orders && j in s.orders && SameClientId(s.orders[i], s.orders[j]) ==> i == j
  }

  lemma StepKeepsClientIdsUnique(s: State, a: Action, t: State)
    requires UniqueClientIds(s) && OrdersStep(s, a, t)
    ensures UniqueClientIds(t)
  {
  }

  lemma {:induction false} ClientIdsStayUnique(s: State, actions: seq<Action>)
    requires UniqueClientIds(s)
    ensures UniqueClientIds(Run(s, actions))
  {
    if actions != [] {
      ClientIdsStayUnique(s, actions[..|actions| - 1]);
      var before, last := Run(s, actions[..|actions| - 1]), actions[|actions| - 1];
      StepOrders(before, last);
      StepKeepsClientIdsUnique(before, last, Step(before, last));
    }
  }

  /** A request that gets as far as the duplicate check. */
  predicate ReachesDuplicateCheck(s: State, r: Request) {
    s.unauthorized == 0 && !s.mode.PlacementFails? && r.symbol != USDCUSD && r.sizing.Quantity?
  }

  /** Once an order carries a client order id, however its placement was answered, it alone
      carries it for the rest of the run; every resubmission that gets that far is refused
      and changes nothing. */
  lemma ClientIdNamesOneOrderForever(s: State, actions: seq<Action>, k: nat, id: OrderId, clientId: string, r: Request)
    requires UniqueClientIds(s) && k <= |actions|
    requires Carries(Run(s, actions[..k]), id, clientId)
    requires r.clientOrderId == Some(clientId)
    ensures var t := Run(s, actions);
            && Carries(t, id, clientId)
            && (forall other :: Carries(t, other, clientId) ==> other == id)
            && (ReachesDuplicateCheck(t, r) ==>
                  forall newId :: newId !in t.orders ==> Place(t, newId, r) == Answered(t, DuplicateClientOrderId))
  {
    OrdersExecuteAtMostOnce(s, actions, k);
    ClientIdsStayUnique(s, actions);
    var t := Run(s, actions);
    assert LivesOn(Run(s, actions[..k]).orders[id], t.orders[id]);
    assert Taken(t, clientId);
  }

  lemma ConvertIgnoresLosses(s: State, id: OrderId, sizing: Sizing, side: Side)
    ensures var p := Convert(s, id, sizing, side);
            && Convert(s.(lostAnswers := 0), id, sizing, side) == Answered(p.state.(lostAnswers := 0), p.answer)
            && p.state.lostAnswers == s.lostAnswers && p.answer != RecordedThenLost
  {
  }

  /** A placement the caller saw fail with 503 leaves exactly the state an accepted one does,
      but for the count of answers still to lose; every other answer is the same too. */
  lemma LostAnswerStillRecords(s: State, id: OrderId, r: Request)
    ensures var lossy, plain := Place(s, id, r), Place(s.(lostAnswers := 0), id, r);
            && lossy.state.(lostAnswers := 0) == plain.state
            && (lossy.answer == RecordedThenLost <==>
                  plain.answer == Accepted && r.symbol != USDCUSD && s.lostAnswers > 0)
            && (lossy.answer != RecordedThenLost ==> lossy.answer == plain.answer)
            && lossy.state.lostAnswers == s.lostAnswers - (if lossy.answer == RecordedThenLost then 1 else 0)
  {
    var calm := s.(lostAnswers := 0);
    if s.unauthorized > 0 || s.mode.PlacementFails? {
    } else if r.symbol == USDCUSD {
      ConvertIgnoresLosses(s, id, r.sizing, r.side);
    } else if r.clientOrderId.Some? {
      assert Taken(s, r.clientOrderId.value) <==> Taken(calm, r.clientOrderId.value);
    }
  }

  // ----- rotating outcomes

  ghost function Planned(s: State, p: Plan): set<OrderId> { PlannedIn(s.orders, p) }

  ghost function PlannedIn(orders: map<OrderId, Order>, p: Plan): set<OrderId> {
    set id | id in orders && orders[id].plan == Some(p)
  }

  /** The cursor says how far the last round got. */
  ghost predicate Balanced(s: State) {
    var filled, rejected := |Planned(s, PlanFilled)|, |Planned(s, PlanRejected)|;
    var cancelled := |Planned(s, PlanCancelled)|;
    && s.rotation < 3
    && filled == rejected + (if s.rotation == 1 then 1 else 0)
    && rejected == cancelled + (if s.rotation == 2 then 1 else 0)
  }

  lemma PlannedAfterUpdate(orders: map<OrderId, Order>, after: map<OrderId, Order>, id: OrderId, o: Order, p: Plan)
    requires after == orders[id := o] && (id in orders ==> orders[id].plan == o.plan)
    ensures |PlannedIn(after, p)| == |PlannedIn(orders, p)| + if id !in orders && o.plan == Some(p) then 1 else 0
  {
    var before := PlannedIn(orders, p);
    if id !in orders && o.plan == Some(p) {
      assert id !in before;
      assert PlannedIn(after, p) == before + {id};
    } else {
      assert PlannedIn(after, p) == before;
    }
  }

  lemma StepKeepsBalance(s: State, a: Action)
    requires Balanced(s)
    ensures Balanced(Step(s, a))
  {
    var t := Step(s, a);
    match a {
      case PlaceOrder(id, request) =>
        if id !in s.orders {
          PlaceOrders(s, id, request);
          BalanceAfter(s, t, id);
        }
      case PollOrder(id, at) =>
        if id in s.orders {
          PollOrders(s, id, at);
          BalanceAfter(s, t, id);
        }
      case _ => BalanceAfter(s, t, 0);
    }
  }

  lemma BalanceAfter(s: State, t: State, id: OrderId)
    requires Balanced(s)
    requires || (t.orders == s.orders && t.rotation == s.rotation)
             || (&& id in t.orders && t.orders == s.orders[id := t.orders[id]]
                 && (id in s.orders ==> s.orders[id].plan == t.orders[id].plan && t.rotation == s.rotation)
                 && (id !in s.orders ==>
                       || (t.orders[id].plan.None? && t.rotation == s.rotation)
                       || (t.orders[id].plan == Some(PlanAt(s.rotation)) && t.rotation == (s.rotation + 1) % 3)))
    ensures Balanced(t)
  {
    if t.orders == s.orders {
      assert forall p :: Planned(t, p) == Planned(s, p);
    } else {
      PlannedAfterUpdate(s.orders, t.orders, id, t.orders[id], PlanFilled);
      PlannedAfterUpdate(s.orders, t.orders, id, t.orders[id], PlanRejected);
      PlannedAfterUpdate(s.orders, t.orders, id, t.orders[id], PlanCancelled);
    }
  }

  /** The three outcomes are handed out evenly, whatever was refused in between and however
      the mode was switched. */
  lemma {:induction false} OutcomesAreHandedOutEvenly(s: State, actions: seq<Action>, p: Plan, q: Plan)
    requires Balanced(s)
    ensures Balanced(Run(s, actions))
    ensures |Planned(Run(s, actions), p)| <= |Planned(Run(s, actions), q)| + 1
  {
    if actions != [] {
      OutcomesAreHandedOutEvenly(s, actions[..|actions| - 1], p, q);
      StepKeepsBalance(Run(s, actions[..|actions| - 1]), actions[|actions| - 1]);
    }
  }

  /** The status a planned order moves to at its next effective poll. */
  function NextStatus(p: Plan, status: Status): Status {
    match p
    case PlanFilled => Filled
    case PlanRejected => Rejected
    case PlanCancelled => if status.New? then PartiallyFilled else Canceled
  }

  predicate OnPath(p: Plan, status: Status) {
    match p
    case PlanFilled => status.New? || status.Filled?
    case PlanRejected => status.New? || status.Rejected?
    case PlanCancelled => status.New? || status.PartiallyFilled? || status.Canceled?
  }

  /** Whether a poll moves the order: it needs a price for a fill, and for a full fill enough
      polls. The server's mode does not matter. */
  predicate Effective(s: State, id: OrderId, p: Plan)
    requires id in s.orders
  {
    var o := s.orders[id];
    var priced := o.symbol in s.fillPrices;
    match p
    case PlanRejected => true
    case PlanFilled =>
      o.pollCount + 1 >= DelayOf(s, o.symbol) && priced && CostOf(o.quantity, s.fillPrices[o.symbol], Full).Some?
    case PlanCancelled =>
      !o.status.New? || (priced && CostOf(o.quantity, s.fillPrices[o.symbol], Half).Some?)
  }

  /** One poll of a planned order, in terms of the order alone. */
  lemma PlannedPoll(s: State, id: OrderId, p: Plan, now: int)
    requires id in s.orders && s.orders[id].plan == Some(p) && OnPath(p, s.orders[id].status)
    ensures var t := Poll(s, id, now);
            id in t.orders && t.orders[id].status ==
              if Effective(s, id, p) then NextStatus(p, s.orders[id].status) else s.orders[id].status
  {
    var c := Counted(s, id);
    var o := c.orders[id];
    if o.symbol in c.fillPrices {
      var price := c.fillPrices[o.symbol];
      if ApplyFill(c, id, price, Full, now).Some? { FillOrders(c, id, price, Full, now); }
      if ApplyFill(c, id, price, Half, now).Some? { FillOrders(c, id, price, Half, now); }
    }
  }

  /** A planned order follows its own path: its own effective polls move it one status on, and
      nothing else moves it, whatever mode the server is in. */
  lemma PlannedOrderKeepsItsPath(s: State, a: Action, id: OrderId, p: Plan)
    requires id in s.orders && s.orders[id].plan == Some(p) && OnPath(p, s.orders[id].status)
    ensures var t := Step(s, a);
            && id in t.orders && t.orders[id].plan == Some(p) && OnPath(p, t.orders[id].status)
            && t.orders[id].status ==
                 if a.PollOrder? && a.id == id && Effective(s, id, p)
                 then NextStatus(p, s.orders[id].status) else s.orders[id].status
  {
    StepOrders(s, a);
    if a.PollOrder? && a.id == id {
      PollOrders(s, id, a.at);
      PlannedPoll(s, id, p, a.at);
    }
  }

  /** The status `n` moves along the path. */
  function PathStatus(p: Plan, status: Status, n: nat): Status {
    if n == 0 then status else NextStatus(p, PathStatus(p, status, n - 1))
  }

  /** The polls of order `id` in a run that could move it. */
  ghost function EffectivePolls(s: State, actions: seq<Action>, id: OrderId, p: Plan): nat {
    if actions == [] then 0
    else
      var before, last := Run(s, actions[..|actions| - 1]), actions[|actions| - 1];
      EffectivePolls(s, actions[..|actions| - 1], id, p) +
      if last.PollOrder? && last.id == id && id in before.orders && Effective(before, id, p) then 1 else 0
  }

  /** Over a run, a planned order is exactly as far along its path as it was polled effectively,
      whatever mode the server was switched to and however other requests came in between. */
  lemma {:induction false} PlannedOrderStaysOnPath(s: State, actions: seq<Action>, id: OrderId, p: Plan)
    requires id in s.orders && s.orders[id].plan == Some(p) && OnPath(p, s.orders[id].status)
    ensures var t := Run(s, actions);
            && id in t.orders && t.orders[id].plan == Some(p) && OnPath(p, t.orders[id].status)
            && t.orders[id].status == PathStatus(p, s.orders[id].status, EffectivePolls(s, actions, id, p))
  {
    if actions != [] {
      PlannedOrderStaysOnPath(s, actions[..|actions| - 1], id, p);
      PlannedOrderKeepsItsPath(Run(s, actions[..|actions| - 1]), actions[|actions| - 1], id, p);
    }
  }
}
