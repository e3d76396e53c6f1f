/** The stateful broker mock as a value: orders and fills, cash and positions, the activity
    ledger, the crypto wallet and its transfers, and the step each request makes.
    Amounts are exact decimals, so they are real numbers here. */
module Broker {
  import opened Basics
  import opened Activities
  import opened Decimal

  type OrderId = nat
  type Symbol = string

  const USDCUSD: Symbol := "USDCUSD"
  const USDC: string := "USDC"
  const MOCK_FILL_FEE_USD: string := "-0.1"
  const CENT: real := 0.01

  datatype Side = Buy | Sell

  datatype Status = New | PartiallyFilled | Filled | Canceled | Rejected

  /** The terminal outcome an order placed under rotating outcomes is driven to. */
  datatype Plan = PlanFilled | PlanRejected | PlanCancelled

  datatype Mode =
    | HappyPath
    | OrderRejected
    | PlacementFails
    | DelayedFill(pollsBeforeFill: nat)
    | PartialFillThenCancel
    | RotatingOutcomes

  datatype Order = Order(
    symbol: Symbol, quantity: real, notional: Option<real>, side: Side, status: Status,
    filledQuantity: real, pollCount: nat, filledPrice: Option<real>,
    clientOrderId: Option<string>, plan: Option<Plan>)

  datatype Position = Position(quantity: real, marketValue: real)

  datatype Direction = Incoming | Outgoing

  datatype TransferStatus = Pending | Processing | Completed

  datatype Transfer = Transfer(direction: Direction, amount: real, asset: string,
                               status: TransferStatus, txHash: string, pollCount: nat, pollsUntilComplete: nat)

  datatype State = State(
    cash: real,
    positions: map<Symbol, Position>,
    orders: map<OrderId, Order>,
    fillPrices: map<Symbol, real>,
    fillDelays: map<Symbol, nat>,
    mode: Mode,
    rotation: nat,
    lostAnswers: nat,
    unauthorized: nat,
    activities: seq<Activity>,
    balances: map<string, real>,
    transfers: seq<Transfer>)

  // ----- fixed-point conversions; the unsigned target refuses negative values

  function Cents(x: real): Option<real> {
    if x < 0.0 then None else Some((x * 100.0).Floor as real / 100.0)
  }

  predicate HasDecimals(x: real, decimals: nat) {
    var scaled := x * Pow10(decimals) as real;
    scaled == scaled.Floor as real
  }

  // ----- fills

  datatype Extent = Full | Half

  function FilledPart(quantity: real, extent: Extent): real {
    if extent.Full? then quantity else quantity * 0.5
  }

  function Worth(quantity: real, price: real): real { quantity * price }

  /** What the executed part costs, in whole cents. */
  function CostOf(quantity: real, price: real, extent: Extent): Option<real> {
    Cents(Worth(FilledPart(quantity, extent), price))
  }

  function PositionOf(s: State, symbol: Symbol): Position {
    if symbol in s.positions then s.positions[symbol] else Position(0.0, 0.0)
  }

  /** The books after `qty` of an order was executed for `cost`. */
  function Settle(s: State, o: Order, qty: real, cost: real): State {
    var p := PositionOf(s, o.symbol);
    if o.side.Buy? then
      s.(cash := s.cash - cost,
         positions := s.positions[o.symbol := Position(p.quantity + qty, p.marketValue + cost)])
    else
      s.(cash := s.cash + cost,
         positions := s.positions[o.symbol := Position(p.quantity - qty, p.marketValue - cost)])
  }

  function FilledOrder(o: Order, price: real, extent: Extent): Order {
    o.(status := if extent.Full? then Filled else PartiallyFilled,
       filledQuantity := FilledPart(o.quantity, extent), filledPrice := Some(price))
  }

  function FeeRow(symbol: Symbol, now: int): NewActivity {
    NewActivity("FEE", MOCK_FILL_FEE_USD, Some(symbol), now)
  }

  /** The executed order recorded, with its fee row. */
  function Booked(s: State, id: OrderId, o: Order, now: int): State {
    s.(orders := s.orders[id := o], activities := Pushed(s.activities, FeeRow(o.symbol, now)))
  }

  /** Executes a fill against a new order; `None` is an arithmetic error. */
  function ApplyFill(s: State, id: OrderId, price: real, extent: Extent, now: int): Option<State>
    requires id in s.orders
  {
    var o := s.orders[id];
    if !o.status.New? then Some(s)
    else
      var cost := CostOf(o.quantity, price, extent);
      if cost.None? then None
      else
        var booked := Booked(s, id, FilledOrder(o, price, extent), now);
        Some(Settle(booked, o, FilledPart(o.quantity, extent), cost.value))
  }

  // ----- polling

  function PollMode(mode: Mode, plan: Option<Plan>): Mode {
    match plan
    case Some(PlanFilled) => HappyPath
    case Some(PlanRejected) => OrderRejected
    case Some(PlanCancelled) => PartialFillThenCancel
    case None => if mode.RotatingOutcomes? then HappyPath else mode
  }

  function DelayOf(s: State, symbol: Symbol): nat {
    if symbol in s.fillDelays then s.fillDelays[symbol] else 0
  }

  /** A fill at the symbol's configured price; `None` without one. */
  function FillAtPrice(s: State, id: OrderId, extent: Extent, now: int): Option<State>
    requires id in s.orders
  {
    var symbol := s.orders[id].symbol;
    if symbol in s.fillPrices then ApplyFill(s, id, s.fillPrices[symbol], extent, now) else None
  }

  function WithStatus(s: State, id: OrderId, status: Status): State
    requires id in s.orders
  {
    s.(orders := s.orders[id := s.orders[id].(status := status)])
  }

  function AdvancePolledOrder(s: State, id: OrderId, now: int): Option<State>
    requires id in s.orders
  {
    var o := s.orders[id];
    match PollMode(s.mode, o.plan)
    case HappyPath =>
      if o.pollCount >= DelayOf(s, o.symbol) then FillAtPrice(s, id, Full, now) else Some(s)
    case DelayedFill(polls) =>
      if o.pollCount >= polls then FillAtPrice(s, id, Full, now) else Some(s)
    case OrderRejected => Some(WithStatus(s, id, Rejected))
    case PartialFillThenCancel =>
      if o.status.New? then FillAtPrice(s, id, Half, now) else Some(WithStatus(s, id, Canceled))
    case PlacementFails => Some(s)
    case RotatingOutcomes => Some(s)
  }

  function Counted(s: State, id: OrderId): State
    requires id in s.orders
  {
    s.(orders := s.orders[id := s.orders[id].(pollCount := s.orders[id].pollCount + 1)])
  }

  /** One status request. An error keeps the poll count and nothing else. */
  function Poll(s: State, id: OrderId, now: int): State {
    if id !in s.orders then s
    else GetOr(AdvancePolledOrder(Counted(s, id), id, now), Counted(s, id))
  }

  // ----- placement

  datatype Sizing = Quantity(amount: real) | Notional(amount: real)

  datatype Request = Request(symbol: Symbol, sizing: Sizing, side: Side, clientOrderId: Option<string>)

  datatype Answer =
    | Accepted
    | Unauthorized
    | PlacementRefused
    | NotionalUnsupported
    | DuplicateClientOrderId
    | RecordedThenLost
    | BadSize
    | ArithmeticError
    | InsufficientUsdc
    | InsufficientBalance

  datatype Answered = Answered(state: State, answer: Answer)

  ghost predicate Carries(s: State, id: OrderId, clientId: string) {
    id in s.orders && s.orders[id].clientOrderId == Some(clientId)
  }

  predicate Taken(s: State, clientId: string) {
    exists id <- s.orders :: s.orders[id].clientOrderId == Some(clientId)
  }

  function PlanAt(rotation: nat): Plan {
    if rotation == 0 then PlanFilled else if rotation == 1 then PlanRejected else PlanCancelled
  }

  function NewOrder(s: State, r: Request): Order {
    Order(r.symbol, r.sizing.amount, None, r.side, New, 0.0, 0, None, r.clientOrderId,
          if s.mode.RotatingOutcomes? then Some(PlanAt(s.rotation)) else None)
  }

  function Place(s: State, id: OrderId, r: Request): Answered {
    if s.unauthorized > 0 then Answered(s.(unauthorized := s.unauthorized - 1), Unauthorized)
    else if s.mode.PlacementFails? then Answered(s, PlacementRefused)
    else if r.symbol == USDCUSD then Convert(s, id, r.sizing, r.side)
    else if r.sizing.Notional? then Answered(s, NotionalUnsupported)
    else if r.clientOrderId.Some? && Taken(s, r.clientOrderId.value) then Answered(s, DuplicateClientOrderId)
    else
      var placed := s.(orders := s.orders[id := NewOrder(s, r)],
                       rotation := if s.mode.RotatingOutcomes? then (s.rotation + 1) % 3 else s.rotation);
      if s.lostAnswers > 0 then Answered(placed.(lostAnswers := s.lostAnswers - 1), RecordedThenLost)
      else Answered(placed, Accepted)
  }

  // ----- the crypto wallet

  function BalanceOf(s: State, asset: string): real {
    if asset in s.balances then s.balances[asset] else 0.0
  }

  function Usdc(s: State): real { BalanceOf(s, USDC) }

  /** A size the real API takes: six decimals of USDC, or whole cents of a notional. */
  predicate Quantized(sizing: Sizing) {
    HasDecimals(sizing.amount, if sizing.Quantity? then 6 else 2)
  }

  /** A USDCUSD order fills at once at one dollar; the cash side is cut to whole cents. */
  function Convert(s: State, id: OrderId, sizing: Sizing, side: Side): Answered {
    var q := sizing.amount;
    var cash := Cents(q);
    if cash.None? then Answered(s, ArithmeticError)
    else if !Quantized(sizing) then Answered(s, BadSize)
    else
      var updated := if side.Buy? then Usdc(s) + q else Usdc(s) - q;
      if updated < 0.0 then Answered(s, InsufficientUsdc)
      else
        var notional := if sizing.Notional? then Some(q) else None;
        var order := Order(USDCUSD, q, notional, side, Filled, q, 0, Some(1.0), None, None);
        Answered(s.(cash := if side.Buy? then s.cash - cash.value else s.cash + cash.value,
                    balances := s.balances[USDC := updated],
                    orders := s.orders[id := order]),
                 Accepted)
  }

  function Withdraw(s: State, asset: string, amount: real): Answered {
    var updated := BalanceOf(s, asset) - amount;
    if updated < 0.0 then Answered(s, InsufficientBalance)
    else
      Answered(s.(balances := s.balances[asset := updated],
                  transfers := s.transfers + [Transfer(Outgoing, amount, asset, Pending, "", 0, 2)]),
               Accepted)
  }

  predicate KnownHash(s: State, hash: string) { exists t <- s.transfers :: t.txHash == hash }

  /** A deposit log of `raw` millionths: recorded once a transaction hash. */
  function Deposit(s: State, hash: string, raw: nat): State {
    if KnownHash(s, hash) then s
    else
      var amount := UsdcAmount(raw);
      s.(balances := s.balances[USDC := Usdc(s) + amount],
         transfers := s.transfers + [Transfer(Incoming, amount, USDC, Completed, hash, 0, 0)])
  }

  /** The hash every outgoing transfer without a real one gets on completion. */
  const FAKE_HASH: string := "0x" + Repeated("cd", 32)

  function Repeated(s: string, times: nat): string {
    if times == 0 then "" else s + Repeated(s, times - 1)
  }

  function AdvanceTransfer(t: Transfer): Transfer {
    if t.status.Completed? then t
    else if t.pollCount + 1 >= t.pollsUntilComplete then
      t.(pollCount := t.pollCount + 1, status := Completed, txHash := if t.txHash == "" then FAKE_HASH else t.txHash)
    else t.(pollCount := t.pollCount + 1, status := Processing)
  }

  function PollTransfers(s: State): State {
    s.(transfers := seq(|s.transfers|, i requires 0 <= i < |s.transfers| => AdvanceTransfer(s.transfers[i])))
  }

  // ----- runs

  datatype Action =
    | PlaceOrder(id: OrderId, request: Request)
    | PollOrder(id: OrderId, at: int)
    | SetMode(mode: Mode)
    | SetFillPrice(symbol: Symbol, price: real)
    | SetFillDelay(symbol: Symbol, polls: nat)
    | LoseAnswers(count: nat)
    | RefuseLogins(count: nat)
    | PostTransfer(asset: string, amount: real)
    | ListTransfers
    | DepositSeen(hash: string, raw: nat)

  /** Order ids are drawn fresh: a placement under an id in use does not occur. */
  function Step(s: State, a: Action): State {
    match a
    case PlaceOrder(id, request) => if id in s.orders then s else Place(s, id, request).state
    case PollOrder(id, at) => Poll(s, id, at)
    case SetMode(mode) => s.(mode := mode)
    case SetFillPrice(symbol, price) => s.(fillPrices := s.fillPrices[symbol := price])
    case SetFillDelay(symbol, polls) => s.(fillDelays := s.fillDelays[symbol := polls])
    case LoseAnswers(count) => s.(lostAnswers := count)
    case RefuseLogins(count) => s.(unauthorized := count)
    case PostTransfer(asset, amount) => Withdraw(s, asset, amount).state
    case ListTransfers => PollTransfers(s)
    case DepositSeen(hash, raw) => Deposit(s, hash, raw)
  }

  function Run(s: State, actions: seq<Action>): State {
    if actions == [] then s
    else Step(Run(s, actions[..|actions| - 1]), actions[|actions| - 1])
  }
}
