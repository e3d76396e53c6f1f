/** The USDC wallet over whole runs: never negative, and conversions lose less than a cent. */
module BrokerWallet {
  import opened Decimal
  import opened Broker
  import opened BrokerRuns

  /** Everything the account owns: cash, positions at book value, and USDC at one dollar. */
  ghost function Wealth(s: State): real {
    s.cash + MarketValue(s.positions) + Usdc(s)
  }

  /** What a step brings in from outside: recorded deposits less USDC sent out. */
  function Inflow(s: State, a: Action): real {
    match a
    case PostTransfer(asset, amount) =>
      if asset == USDC && Withdraw(s, asset, amount).answer.Accepted? then -amount else 0.0
    case DepositSeen(hash, raw) => if KnownHash(s, hash) then 0.0 else raw as real / 1000000.0
    case _ => 0.0
  }

  /** Wealth a step created or destroyed. */
  ghost function Drift(s: State, a: Action): real {
    Wealth(Step(s, a)) - Wealth(s) - Inflow(s, a)
  }

  lemma CentsRoundDown(x: real)
    requires Cents(x).Some?
    ensures 0.0 <= x - Cents(x).value < CENT
    ensures HasDecimals(x, 2) ==> Cents(x).value == x
  {
    var hundred := x * 100.0;
    assert hundred.Floor as real <= hundred < hundred.Floor as real + 1.0;
    assert Pow10(2) == 10 * Pow10(1) && Pow10(1) == 10 * Pow10(0);
    assert Pow10(2) == 100;
  }

  /** An accepted conversion: a buy gains less than a cent, a sell loses less than a cent, and
      one sized in dollars is exact. */
  lemma ConversionRounds(s: State, a: Action)
    requires IsConversion(s, a)
    ensures a.request.side.Buy? ==> 0.0 <= Drift(s, a) < CENT
    ensures a.request.side.Sell? ==> -CENT < Drift(s, a) <= 0.0
    ensures a.request.sizing.Notional? ==> Drift(s, a) == 0.0
  {
    CentsRoundDown(a.request.sizing.amount);
  }

  /** A refused conversion changes nothing. */
  lemma RefusedConversionChangesNothing(s: State, id: OrderId, r: Request)
    requires r.symbol == USDCUSD && s.unauthorized == 0 && !Place(s, id, r).answer.Accepted?
    ensures Place(s, id, r).state == s
  {
  }

  lemma NothingElseDrifts(s: State, a: Action)
    requires OrdersOk(s) && !IsConversion(s, a)
    ensures Drift(s, a) == 0.0
  {
    StepConserves(s, a);
    match a {
      case PlaceOrder(id, request) => if id !in s.orders { PlaceConserves(s, id, request); }
      case PollOrder(id, at) => PollConserves(s, id, at);
      case _ =>
    }
  }

  ghost function NetInflow(s: State, actions: seq<Action>): real {
    if actions == [] then 0.0
    else
      var front, last := actions[..|actions| - 1], actions[|actions| - 1];
      NetInflow(s, front) + Inflow(Run(s, front), last)
  }

  /** Over a run with n conversions, wealth changes by what came in from outside, give or take
      less than n cents. */
  lemma {:induction false} ConversionsDriftLessThanACentEach(s: State, actions: seq<Action>)
    requires OrdersOk(s)
    ensures var n := Conversions(s, actions);
            var drift := Wealth(Run(s, actions)) - Wealth(s) - NetInflow(s, actions);
            && (n == 0 ==> drift == 0.0)
            && (n > 0 ==> -(n as real) * CENT < drift < n as real * CENT)
  {
    if actions != [] {
      var front, last := actions[..|actions| - 1], actions[|actions| - 1];
      var before := Run(s, front);
      ConversionsDriftLessThanACentEach(s, front);
      RunKeepsLedgers(s, front);
      if IsConversion(before, last) {
        ConversionRounds(before, last);
      } else {
        NothingElseDrifts(before, last);
      }
    }
  }

  lemma StepKeepsUsdcNonNegative(s: State, a: Action)
    requires OrdersOk(s) && Usdc(s) >= 0.0
    ensures Usdc(Step(s, a)) >= 0.0
  {
    match a {
      case PlaceOrder(id, request) =>
        if id !in s.orders && !IsConversion(s, a) { PlaceConserves(s, id, request); }
      case PollOrder(id, at) => PollConserves(s, id, at);
      case _ =>
    }
  }

  /** A USDC wallet that starts non-negative stays so over every run of conversions, transfers,
      deposits and everything else. */
  lemma {:induction false} UsdcNeverGoesNegative(s: State, actions: seq<Action>)
    requires OrdersOk(s) && Usdc(s) >= 0.0
    ensures Usdc(Run(s, actions)) >= 0.0
  {
    if actions != [] {
      var front := actions[..|actions| - 1];
      UsdcNeverGoesNegative(s, front);
      RunKeepsLedgers(s, front);
      StepKeepsUsdcNonNegative(Run(s, front), actions[|actions| - 1]);
    }
  }
}
