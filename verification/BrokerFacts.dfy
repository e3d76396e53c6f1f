/** What the broker mock makes of each request, from the request alone: which placements are
    recorded and as what, what a fill moves, when a transfer completes, what a conversion does. */
module BrokerFacts {
  import opened Basics
  import Decimal
  import opened Broker
  import opened BrokerOrders

  // ----- placements

  /** The equity placements that are recorded. */
  predicate Recordable(s: State, r: Request) {
    && s.unauthorized == 0 && s.mode != PlacementFails && r.symbol != "USDCUSD" && r.sizing.Quantity?
    && (r.clientOrderId.Some? ==> forall id <- s.orders :: s.orders[id].clientOrderId != r.clientOrderId)
  }

  /** An equity placement is recorded exactly when the login holds, placements are not made to
      fail, it names a quantity and its client order id is free: then as the order requested,
      new, with nothing executed. Otherwise no order changes. */
  lemma PlacedAsRequested(s: State, id: OrderId, r: Request)
    requires id !in s.orders && r.symbol != "USDCUSD"
    ensures var p := Place(s, id, r);
            && ((p.answer == Accepted || p.answer == RecordedThenLost) <==> Recordable(s, r))
            && (!Recordable(s, r) ==> p.state.orders == s.orders)
            && (Recordable(s, r) ==>
                  && id in p.state.orders && p.state.orders == s.orders[id := p.state.orders[id]]
                  && p.state.cash == s.cash && p.state.positions == s.positions && p.state.activities == s.activities
                  && var o := p.state.orders[id];
                     && o.symbol == r.symbol && o.quantity == r.sizing.amount && o.side == r.side
                     && o.clientOrderId == r.clientOrderId && o.notional.None?
                     && o.status == New && o.filledQuantity == 0.0 && o.filledPrice.None? && o.pollCount == 0
                     && (s.mode != RotatingOutcomes ==> o.plan.None?))
  {
  }

  /** Why a placement is not recorded, in the order of the checks: the login, the mode, a notional
      equity order, a client order id in use. Only a failed login changes anything. */
  lemma RefusedPlacements(s: State, id: OrderId, r: Request)
    ensures var p := Place(s, id, r);
            && (s.unauthorized > 0 ==> p == Answered(s.(unauthorized := s.unauthorized - 1), Unauthorized))
            && (s.unauthorized == 0 && s.mode == PlacementFails ==> p == Answered(s, PlacementRefused))
            && (s.unauthorized == 0 && s.mode != PlacementFails && r.symbol != "USDCUSD" ==>
                  && (r.sizing.Notional? ==> p == Answered(s, NotionalUnsupported))
                  && (r.sizing.Quantity? && !Recordable(s, r) ==> p == Answered(s, DuplicateClientOrderId)))
  {
  }

  /** An order changes under its own polls only. */
  lemma {:induction false} UnpolledOrderWaits(s: State, actions: seq<Action>, id: OrderId)
    requires id in s.orders && forall a <- actions :: !(a.PollOrder? && a.id == id)
    ensures id in Run(s, actions).orders && Run(s, actions).orders[id] == s.orders[id]
  {
    if actions != [] {
      var front, last := actions[..|actions| - 1], actions[|actions| - 1];
      assert actions == front + [last] && last in actions;
      UnpolledOrderWaits(s, front, id);
      StepOrders(Run(s, front), last);
    }
  }

  // ----- fills

  function Signed(side: Side, x: real): real { if side.Buy? then x else -x }

  /** What `quantity` at `price` comes to in whole cents. */
  function CutToCents(quantity: real, price: real): real { (quantity * price * 100.0).Floor as real / 100.0 }

  /** `t` is `s` after order `id` executed `quantity` at `price` for `cost`: the position moves by
      the quantity, cash against it by the cost, the books by the same, and one fee row of ten
      cents is added. */
  ghost predicate Executes(s: State, id: OrderId, quantity: real, price: real, cost: real, status: Status, t: State)
    requires id in s.orders
  {
    var o := s.orders[id];
    && id in t.orders && t.orders[id].status == status && t.orders[id].filledQuantity == quantity
    && t.orders[id].filledPrice == Some(price)
    && t.cash == s.cash - Signed(o.side, cost)
    && o.symbol in t.positions
    && t.positions[o.symbol].quantity == PositionOf(s, o.symbol).quantity + Signed(o.side, quantity)
    && t.positions[o.symbol].marketValue == PositionOf(s, o.symbol).marketValue + Signed(o.side, cost)
    && (forall x <- s.positions :: x != o.symbol ==> x in t.positions && t.positions[x] == s.positions[x])
    && |t.activities| == |s.activities| + 1 && s.activities <= t.activities
    && var row := t.activities[|s.activities|];
       row.activityType == "FEE" && row.netAmount == "-0.1" && row.symbol == Some(o.symbol)
  }

  lemma SettlingMoves(s: State, o: Order, quantity: real, cost: real)
    ensures var t := Settle(s, o, quantity, cost);
            && t.cash == s.cash - Signed(o.side, cost)
            && t.positions == s.positions[o.symbol := Position(
                 PositionOf(s, o.symbol).quantity + Signed(o.side, quantity),
                 PositionOf(s, o.symbol).marketValue + Signed(o.side, cost))]
            && t.orders == s.orders && t.activities == s.activities
  {
  }

  lemma BookingRecords(s: State, id: OrderId, o: Order, now: int)
    ensures var t := Booked(s, id, o, now);
            && t.cash == s.cash && t.positions == s.positions && t.orders == s.orders[id := o]
            && |t.activities| == |s.activities| + 1 && s.activities <= t.activities
            && var row := t.activities[|s.activities|];
               row.activityType == "FEE" && row.netAmount == "-0.1" && row.symbol == Some(o.symbol)
  {
  }

  function StatusAfterFill(extent: Extent): Status { if extent.Full? then Filled else PartiallyFilled }

  lemma FillExecutes(s: State, id: OrderId, price: real, extent: Extent, now: int)
    requires id in s.orders && s.orders[id].status == New && CostOf(s.orders[id].quantity, price, extent).Some?
    ensures var o := s.orders[id];
            && ApplyFill(s, id, price, extent, now).Some?
            && Executes(s, id, FilledPart(o.quantity, extent), price, CostOf(o.quantity, price, extent).value,
                        StatusAfterFill(extent), ApplyFill(s, id, price, extent, now).value)
  {
    var o := s.orders[id];
    var filled := FilledOrder(o, price, extent);
    BookingRecords(s, id, filled, now);
    var cost := CostOf(o.quantity, price, extent).value;
    SettlingMoves(Booked(s, id, filled, now), o, FilledPart(o.quantity, extent), cost);
  }

  // ----- polls of an order without a plan

  /** What the next poll of a new order without a plan does under the server's mode: `Some(Full)`
      fills it, `Some(Half)` fills half of it. */
  function Due(mode: Mode, polls: nat, delay: nat): Option<Extent> {
    match mode
    case HappyPath => if polls >= delay then Some(Full) else None
    case RotatingOutcomes => if polls >= delay then Some(Full) else None
    case DelayedFill(before) => if polls >= before then Some(Full) else None
    case PartialFillThenCancel => Some(Half)
    case _ => None
  }

  function DueFor(s: State, o: Order): Option<Extent> {
    Due(s.mode, o.pollCount + 1, if o.symbol in s.fillDelays then s.fillDelays[o.symbol] else 0)
  }

  /** One poll of order `id` counted, and its status set. */
  function CountedAs(s: State, id: OrderId, status: Status): State
    requires id in s.orders
  {
    s.(orders := s.orders[id := s.orders[id].(pollCount := s.orders[id].pollCount + 1, status := status)])
  }

  lemma PollUnplanned(s: State, id: OrderId, now: int)
    requires id in s.orders && s.orders[id].status == New && s.orders[id].plan.None?
    ensures var o, t := s.orders[id], Poll(s, id, now);
            && (s.mode == OrderRejected ==> t == CountedAs(s, id, Rejected))
            && (s.mode != OrderRejected && (DueFor(s, o).None? || o.symbol !in s.fillPrices) ==>
                  t == CountedAs(s, id, New))
            && (s.mode != OrderRejected && DueFor(s, o).Some? && o.symbol in s.fillPrices ==>
                  var p, extent := s.fillPrices[o.symbol], DueFor(s, o).value;
                  t == GetOr(ApplyFill(CountedAs(s, id, New), id, p, extent, now), CountedAs(s, id, New)))
  {
    assert Counted(s, id) == CountedAs(s, id, New);
  }

  lemma CostsAreCutToCents(q: real, price: real)
    ensures q * price >= 0.0 ==> CostOf(q, price, Full) == Some(CutToCents(q, price))
    ensures q * price >= 0.0 ==> CostOf(q, price, Half) == Some(CutToCents(q / 2.0, price))
    ensures q * price < 0.0 ==> CostOf(q, price, Full).None? && CostOf(q, price, Half).None?
    ensures FilledPart(q, Full) == q && FilledPart(q, Half) == q / 2.0
  {
    var half := q / 2.0;
    assert FilledPart(q, Half) == half && Worth(half, price) == half * price && Worth(q, price) == q * price;
    assert q * price == half * price + half * price;
  }

  lemma PollFills(s: State, id: OrderId, now: int, p: real, extent: Extent, part: real, cost: real)
    requires id in s.orders && s.orders[id].status == New && s.orders[id].plan.None?
    requires s.mode != OrderRejected && DueFor(s, s.orders[id]) == Some(extent)
    requires s.orders[id].symbol in s.fillPrices && s.fillPrices[s.orders[id].symbol] == p
    requires FilledPart(s.orders[id].quantity, extent) == part && CostOf(s.orders[id].quantity, p, extent) == Some(cost)
    ensures Executes(s, id, part, p, cost, StatusAfterFill(extent), Poll(s, id, now))
  {
    PollUnplanned(s, id, now);
    FillExecutes(CountedAs(s, id, New), id, p, extent, now);
  }

  lemma PollRefusesNegativeCosts(s: State, id: OrderId, now: int, p: real, extent: Extent)
    requires id in s.orders && s.orders[id].status == New && s.orders[id].plan.None?
    requires s.mode != OrderRejected && DueFor(s, s.orders[id]) == Some(extent)
    requires s.orders[id].symbol in s.fillPrices && s.fillPrices[s.orders[id].symbol] == p
    requires CostOf(s.orders[id].quantity, p, extent).None?
    ensures Poll(s, id, now) == CountedAs(s, id, New)
  {
    PollUnplanned(s, id, now);
  }

  /** A poll of a new order without a plan follows the mode the server is in: it rejects the
      order; it only counts when no fill is due yet or no price is set. */
  lemma PollFollowsTheMode(s: State, id: OrderId, now: int)
    requires id in s.orders && s.orders[id].status == New && s.orders[id].plan.None?
    ensures s.mode == OrderRejected ==> Poll(s, id, now) == CountedAs(s, id, Rejected)
    ensures s.mode != OrderRejected && (DueFor(s, s.orders[id]).None? || s.orders[id].symbol !in s.fillPrices) ==>
              Poll(s, id, now) == CountedAs(s, id, New)
  {
    PollUnplanned(s, id, now);
  }

  /** When a fill is due at a price, the poll executes the whole order, or half of it before a
      cancellation; a negative cost is refused and only counted. */
  lemma DuePollFills(s: State, id: OrderId, now: int, p: real, extent: Extent)
    requires id in s.orders && s.orders[id].status == New && s.orders[id].plan.None?
    requires s.mode != OrderRejected && DueFor(s, s.orders[id]) == Some(extent)
    requires s.orders[id].symbol in s.fillPrices && s.fillPrices[s.orders[id].symbol] == p
    ensures var q, t := s.orders[id].quantity, Poll(s, id, now);
            && (q * p < 0.0 ==> t == CountedAs(s, id, New))
            && (q * p >= 0.0 && extent == Full ==> Executes(s, id, q, p, CutToCents(q, p), Filled, t))
            && (q * p >= 0.0 && extent == Half ==>
                  Executes(s, id, q / 2.0, p, CutToCents(q / 2.0, p), PartiallyFilled, t))
  {
    var q := s.orders[id].quantity;
    CostsAreCutToCents(q, p);
    if q * p < 0.0 {
      PollRefusesNegativeCosts(s, id, now, p, extent);
    } else if extent == Full {
      PollFills(s, id, now, p, Full, q, CutToCents(q, p));
    } else {
      PollFills(s, id, now, p, Half, q / 2.0, CutToCents(q / 2.0, p));
    }
  }

  /** `t` is `u` after `side` of `q` in `symbol` was filled whole under `id` for `cost`. */
  ghost predicate FilledWhole(u: State, id: OrderId, symbol: Symbol, side: Side, q: real, cost: real, t: State) {
    && id in t.orders && t.orders[id].status == Filled && t.orders[id].filledQuantity == q
    && (side == Buy ==>
          t.cash == u.cash - cost && PositionOf(t, symbol).quantity == PositionOf(u, symbol).quantity + q)
    && (side == Sell ==>
          t.cash == u.cash + cost && PositionOf(t, symbol).quantity == PositionOf(u, symbol).quantity - q)
  }

  lemma ExecutionFills(u: State, id: OrderId, q: real, p: real, cost: real, t: State)
    requires id in u.orders && Executes(u, id, q, p, cost, Filled, t)
    ensures FilledWhole(u, id, u.orders[id].symbol, u.orders[id].side, q, cost, t)
  {
  }

  lemma AwaitedOrderFills(u: State, id: OrderId, r: Request, at: int, p: real)
    requires id in u.orders && Awaits(u.orders[id], r)
    requires u.mode == HappyPath && (r.symbol in u.fillDelays ==> u.fillDelays[r.symbol] <= 1)
    requires r.symbol in u.fillPrices && u.fillPrices[r.symbol] == p && r.sizing.amount * p >= 0.0
    ensures FilledWhole(u, id, r.symbol, r.side, r.sizing.amount, CutToCents(r.sizing.amount, p), Poll(u, id, at))
  {
    var q := r.sizing.amount;
    CostsAreCutToCents(q, p);
    PollFills(u, id, at, p, Full, q, CutToCents(q, p));
    ExecutionFills(u, id, q, p, CutToCents(q, p), Poll(u, id, at));
  }

  /** End to end: a recorded order of `q`, whatever happens before its first poll, is filled whole
      by a poll on the happy path at the price `p` then set: a buy leaves the position `q` higher
      and cash lower by q * p, cut to whole cents, and a sell the reverse. */
  lemma PlacedThenFilled(s: State, id: OrderId, r: Request, actions: seq<Action>, at: int, u: State, p: real)
    requires id !in s.orders && Recordable(s, r) && s.mode != RotatingOutcomes
    requires forall a <- actions :: !(a.PollOrder? && a.id == id)
    requires u == Run(Place(s, id, r).state, actions)
    requires u.mode == HappyPath && (r.symbol in u.fillDelays ==> u.fillDelays[r.symbol] <= 1)
    requires r.symbol in u.fillPrices && u.fillPrices[r.symbol] == p && r.sizing.amount * p >= 0.0
    ensures FilledWhole(u, id, r.symbol, r.side, r.sizing.amount, CutToCents(r.sizing.amount, p), Poll(u, id, at))
  {
    RecordedOrderWaits(s, id, r, actions, u);
    AwaitedOrderFills(u, id, r, at, p);
  }

  /** The order requested, not polled yet. */
  predicate Awaits(o: Order, r: Request) {
    && o.symbol == r.symbol && o.quantity == r.sizing.amount && o.side == r.side
    && o.status == New && o.plan.None? && o.pollCount == 0
  }

  lemma RecordedOrderWaits(s: State, id: OrderId, r: Request, actions: seq<Action>, u: State)
    requires id !in s.orders && Recordable(s, r) && s.mode != RotatingOutcomes
    requires forall a <- actions :: !(a.PollOrder? && a.id == id)
    requires u == Run(Place(s, id, r).state, actions)
    ensures id in u.orders && Awaits(u.orders[id], r)
  {
    PlacedAsRequested(s, id, r);
    UnpolledOrderWaits(Place(s, id, r).state, actions, id);
  }

  /** A partly filled order is cancelled by its next poll and keeps its fill; a filled one stays
      as it is on the happy path. */
  lemma LaterPolls(s: State, id: OrderId, now: int)
    requires id in s.orders && s.orders[id].status != New && s.orders[id].plan.None?
    ensures s.mode == PartialFillThenCancel ==> Poll(s, id, now) == CountedAs(s, id, Canceled)
    ensures s.mode == HappyPath && s.orders[id].symbol in s.fillPrices ==>
              Poll(s, id, now) == CountedAs(s, id, s.orders[id].status)
  {
  }

  // ----- wallet transfers

  /** The listings among `actions`. */
  function Listings(actions: seq<Action>): nat {
    if actions == [] then 0
    else Listings(actions[..|actions| - 1]) + if actions[|actions| - 1].ListTransfers? then 1 else 0
  }

  /** A withdrawal is accepted exactly when the balance covers it, and then lowers it by the
      amount and records a pending transfer of it. */
  lemma WithdrawalIsCovered(s: State, asset: string, amount: real)
    ensures var p := Withdraw(s, asset, amount);
            && (p.answer == Accepted <==> amount <= BalanceOf(s, asset))
            && (p.answer != Accepted ==> p.state == s)
            && (p.answer == Accepted ==>
                  && BalanceOf(p.state, asset) == BalanceOf(s, asset) - amount
                  && (forall other: string :: other != asset ==> BalanceOf(p.state, other) == BalanceOf(s, other))
                  && p.state.cash == s.cash && |p.state.transfers| == |s.transfers| + 1
                  && var t := p.state.transfers[|s.transfers|];
                     && t.direction == Outgoing && t.amount == amount && t.asset == asset
                     && t.status == Pending && t.txHash == "" && t.pollCount == 0)
  {
  }

  /** How a pending transfer stands after `n` listings. */
  ghost predicate Listed(t: Transfer, n: nat, later: Transfer) {
    && later == t.(status := later.status, pollCount := later.pollCount, txHash := later.txHash)
    && later.status == (if n == 0 then Pending
                        else if t.pollCount + n < t.pollsUntilComplete then Processing else Completed)
    && (later.status != Completed ==> later.pollCount == t.pollCount + n && later.txHash == t.txHash)
    && (later.status == Completed ==>
          later.txHash == if t.txHash == "" then "0x" + Repeated("cd", 32) else t.txHash)
  }

  lemma StepTransfers(s: State, a: Action, i: nat)
    requires i < |s.transfers|
    ensures i < |Step(s, a).transfers|
    ensures Step(s, a).transfers[i] == if a.ListTransfers? then AdvanceTransfer(s.transfers[i]) else s.transfers[i]
  {
    match a {
      case PollOrder(id, at) => PollKeepsTransfers(s, id, at);
      case _ =>
    }
  }

  lemma PollKeepsTransfers(s: State, id: OrderId, at: int)
    ensures Poll(s, id, at).transfers == s.transfers
  {
    if id in s.orders {
      var c := Counted(s, id);
      var symbol := c.orders[id].symbol;
      if symbol in c.fillPrices {
        FillKeepsTransfers(c, id, c.fillPrices[symbol], Full, at);
        FillKeepsTransfers(c, id, c.fillPrices[symbol], Half, at);
      }
    }
  }

  lemma FillKeepsTransfers(s: State, id: OrderId, price: real, extent: Extent, at: int)
    requires id in s.orders
    ensures ApplyFill(s, id, price, extent, at).Some? ==>
              ApplyFill(s, id, price, extent, at).value.transfers == s.transfers
  {
  }

  /** A pending transfer, whatever else happens, is processing after its first listing and complete
      on the one its threshold names (the second, as withdrawals are posted), then under a hash. */
  lemma {:induction false} TransferCompletesOnItsListing(s: State, actions: seq<Action>, i: nat)
    requires i < |s.transfers| && s.transfers[i].status == Pending
    ensures var t := Run(s, actions);
            i < |t.transfers| && Listed(s.transfers[i], Listings(actions), t.transfers[i])
  {
    if actions != [] {
      var front, last := actions[..|actions| - 1], actions[|actions| - 1];
      TransferCompletesOnItsListing(s, front, i);
      StepTransfers(Run(s, front), last, i);
    }
  }

  lemma WithdrawalsTakeTwoListings(s: State, asset: string, amount: real)
    requires Withdraw(s, asset, amount).answer == Accepted
    ensures Withdraw(s, asset, amount).state.transfers[|s.transfers|].pollsUntilComplete == 2
  {
  }

  /** A deposit of `raw` millionths under a new hash raises USDC by raw / 10^6 and is recorded as a
      complete incoming transfer; under a known hash nothing changes. */
  lemma DepositIsBookedOnce(s: State, hash: string, raw: nat)
    ensures var t := Step(s, DepositSeen(hash, raw));
            if exists x <- s.transfers :: x.txHash == hash then t == s
            else
              && Usdc(t) == Usdc(s) + raw as real / 1000000.0 && t.cash == s.cash
              && |t.transfers| == |s.transfers| + 1 && t.transfers[..|s.transfers|] == s.transfers
              && var x := t.transfers[|s.transfers|];
                 && x.direction == Incoming && x.status == Completed && x.asset == "USDC" && x.txHash == hash
                 && x.amount == raw as real / 1000000.0
  {
  }

  // ----- settings

  /** A setting is in force from the step that makes it, until the next one of its kind. */
  lemma SettingsTakeEffect(s: State, mode: Mode, symbol: Symbol, price: real, polls: nat, count: nat)
    ensures Step(s, SetMode(mode)) == s.(mode := mode)
    ensures Step(s, SetFillPrice(symbol, price)) == s.(fillPrices := s.fillPrices[symbol := price])
    ensures Step(s, SetFillDelay(symbol, polls)) == s.(fillDelays := s.fillDelays[symbol := polls])
    ensures Step(s, LoseAnswers(count)) == s.(lostAnswers := count)
    ensures Step(s, RefuseLogins(count)) == s.(unauthorized := count)
  {
  }

  // ----- conversions

  /** A conversion is accepted exactly when its size is not negative, has no more decimals than
      six of USDC or two of dollars, and a sell is covered; then USDC moves by the size, and cash
      against it by the size cut to whole cents. */
  lemma ConversionMovesItsSize(s: State, id: OrderId, sizing: Sizing, side: Side)
    ensures var p, q := Convert(s, id, sizing, side), sizing.amount;
            && (p.answer == Accepted <==>
                  && q >= 0.0
                  && (if sizing.Quantity? then q * 1000000.0 == (q * 1000000.0).Floor as real
                      else q * 100.0 == (q * 100.0).Floor as real)
                  && (side == Sell ==> q <= Usdc(s)) && (side == Buy ==> 0.0 <= Usdc(s) + q))
            && (p.answer != Accepted ==> p.state == s)
            && (p.answer == Accepted ==>
                  && Usdc(p.state) == Usdc(s) + Signed(side, q)
                  && p.state.cash == s.cash - Signed(side, (q * 100.0).Floor as real / 100.0)
                  && p.state.positions == s.positions
                  && id in p.state.orders
                  && var o := p.state.orders[id];
                     o.status == Filled && o.filledQuantity == q && o.filledPrice == Some(1.0) && o.side == side)
  {
    MillionIsSixDecimals(sizing.amount);
  }

  lemma MillionIsSixDecimals(q: real)
    ensures HasDecimals(q, 6) <==> q * 1000000.0 == (q * 1000000.0).Floor as real
    ensures HasDecimals(q, 2) <==> q * 100.0 == (q * 100.0).Floor as real
  {
    assert Decimal.Pow10(0) == 1 && Decimal.Pow10(1) == 10 && Decimal.Pow10(2) == 100 && Decimal.Pow10(3) == 1000;
    assert Decimal.Pow10(4) == 10000 && Decimal.Pow10(5) == 100000 && Decimal.Pow10(6) == 1000000;
  }
}
