/** The tokenization mock as a value: mint posts with idempotency keys, the polling endpoint,
    detected redemptions, and a background executor that runs mints on chain.

    The executor remembers requests by index while it works without the lock, so its jobs are
    part of the state and everything else may happen between two of its steps. */
module Tokenization {
  import opened Basics
  import opened Broker

  datatype Kind = MintKind | RedeemKind

  datatype RequestStatus = Waiting | Done | Refused | Broken

  datatype Req = Req(
    id: nat, key: Option<string>, correlation: string, symbol: Symbol, quantity: real, wallet: nat,
    status: RequestStatus, pollCount: nat, pollsUntilComplete: nat, kind: Kind, txHash: string,
    needsMint: bool)

  /** A mint the executor collected: the index it saved, and the request it read there, from
      which it takes the amount, the wallet and the token. */
  datatype Job = Job(index: nat, request: Req)

  /** `landed` lists, by request index, the on-chain transfers whose receipt came back. */
  datatype World = World(
    requests: seq<Req>,
    pollsUntilComplete: nat,
    rejectRedemptions: bool,
    positions: map<Symbol, Position>,
    prices: map<Symbol, real>,
    tokens: set<Symbol>,
    jobs: seq<Job>,
    landed: seq<nat>)

  // ----- the broker side

  /** Changes a position's quantity and revalues it when a price is known. */
  function Adjusted(positions: map<Symbol, Position>, prices: map<Symbol, real>, symbol: Symbol, delta: real)
    : map<Symbol, Position>
  {
    if symbol in positions then
      var p := positions[symbol];
      var q := p.quantity + delta;
      positions[symbol := Position(q, if symbol in prices then Worth(q, prices[symbol]) else p.marketValue)]
    else
      positions[symbol := Position(delta, if symbol in prices then Worth(delta, prices[symbol]) else 0.0)]
  }

  function Shares(w: World, symbol: Symbol): real {
    if symbol in w.positions then w.positions[symbol].quantity else 0.0
  }

  /** An empty text is no symbol, so nothing is adjusted for it. */
  function Adjust(w: World, symbol: Symbol, delta: real): World {
    if symbol == "" then w else w.(positions := Adjusted(w.positions, w.prices, symbol, delta))
  }

  // ----- posting mints

  datatype MintBody = MintBody(symbol: Symbol, quantity: real, wallet: nat, correlation: string, key: Option<string>)

  datatype MintAnswer = Created(index: nat) | Existing(index: nat) | KeyReused

  predicate HasKey(r: Req, key: Option<string>) { key.Some? && r.key == key }

  /** The first request with that key. */
  function FindKey(requests: seq<Req>, key: Option<string>): (k: Option<nat>)
    ensures k.Some? ==> k.value < |requests| && HasKey(requests[k.value], key)
    ensures k.None? ==> forall r <- requests :: !HasKey(r, key)
  {
    if requests == [] then None
    else
      var n := |requests| - 1;
      var front := FindKey(requests[..n], key);
      assert requests == requests[..n] + [requests[n]];
      if front.Some? then front else if HasKey(requests[n], key) then Some(n) else None
  }

  predicate SameMint(r: Req, b: MintBody) {
    && r.kind.MintKind? && r.correlation == b.correlation && r.symbol == b.symbol
    && r.quantity == b.quantity && r.wallet == b.wallet
  }

  function NewMint(w: World, id: nat, b: MintBody): Req {
    Req(id, b.key, b.correlation, b.symbol, b.quantity, b.wallet, Waiting, 0, w.pollsUntilComplete, MintKind, "", false)
  }

  function PostMint(w: World, id: nat, b: MintBody): (World, MintAnswer) {
    var found := FindKey(w.requests, b.key);
    if found.Some? then
      (w, if SameMint(w.requests[found.value], b) then Existing(found.value) else KeyReused)
    else (w.(requests := w.requests + [NewMint(w, id, b)]), Created(|w.requests|))
  }

  // ----- polling

  /** One request's share of an unfiltered read. */
  function PollAt(w: World, i: nat): World
    requires i < |w.requests|
  {
    var r := w.requests[i];
    if !r.status.Waiting? || r.needsMint then w
    else
      var counted := r.(pollCount := r.pollCount + 1);
      if counted.pollCount < counted.pollsUntilComplete then w.(requests := w.requests[i := counted])
      else if r.kind.MintKind? then w.(requests := w.requests[i := counted.(needsMint := true)])
      else if w.rejectRedemptions then w.(requests := w.requests[i := counted.(status := Refused)])
      else Adjust(w.(requests := w.requests[i := counted.(status := Done)]), r.symbol, r.quantity)
  }

  function PollFirst(w: World, n: nat): (v: World)
    requires n <= |w.requests|
    ensures |v.requests| == |w.requests|
  {
    if n == 0 then w else PollAt(PollFirst(w, n - 1), n - 1)
  }

  /** A read with a status filter observes only. */
  function ReadRequests(w: World, statusFiltered: bool): World {
    if statusFiltered then w else PollFirst(w, |w.requests|)
  }

  // ----- redemptions seen on chain

  predicate KnownTx(w: World, hash: string) { exists r <- w.requests :: r.txHash == hash }

  function Detect(w: World, id: nat, hash: string, symbol: Symbol, quantity: real, owner: nat): World {
    if KnownTx(w, hash) then w
    else w.(requests := w.requests +
              [Req(id, None, "", symbol, quantity, owner, Waiting, 0, w.pollsUntilComplete, RedeemKind, hash, false)])
  }

  // ----- the executor

  /** The jobs of a pass: waiting executions with a known token, in request order. */
  function JobsOf(requests: seq<Req>, tokens: set<Symbol>): seq<Job> {
    if requests == [] then []
    else
      var n := |requests| - 1;
      var front, r := JobsOf(requests[..n], tokens), requests[n];
      if r.needsMint && r.symbol in tokens then front + [Job(n, r)] else front
  }

  function FailUnknown(r: Req, tokens: set<Symbol>): Req {
    if r.needsMint && r.symbol !in tokens then r.(needsMint := false, status := Broken) else r
  }

  function Collect(w: World): World {
    if w.jobs != [] then w
    else w.(jobs := JobsOf(w.requests, w.tokens),
            requests := seq(|w.requests|, i requires 0 <= i < |w.requests| => FailUnknown(w.requests[i], w.tokens)))
  }

  /** How the chain answers a transfer. */
  datatype Execution = NotSent | ReceiptLost | Mined(hash: string, success: bool)

  function Execute(w: World, e: Execution): World {
    if w.jobs == [] then w
    else
      var job := w.jobs[0];
      var rest := w.(jobs := w.jobs[1..]);
      match e
      case NotSent => rest
      case ReceiptLost => rest
      case Mined(hash, success) =>
        var landed := rest.(landed := w.landed + [job.index]);
        if job.index >= |w.requests| then landed
        else Land(landed, job, hash, success)
  }

  /** Records the receipt on the request at the saved index. */
  function Land(w: World, job: Job, hash: string, success: bool): World
    requires job.index < |w.requests|
  {
    var r := w.requests[job.index].(txHash := hash, needsMint := false);
    if success then
      Adjust(w.(requests := w.requests[job.index := r.(status := Done)]), r.symbol, -job.request.quantity)
    else w.(requests := w.requests[job.index := r.(status := Broken)])
  }

  // ----- runs

  datatype Action =
    | Post(id: nat, body: MintBody)
    | Read(statusFiltered: bool)
    | Redemption(id: nat, hash: string, symbol: Symbol, quantity: real, owner: nat)
    | Inject(request: Req)
    | SetPolls(polls: nat)
    | SetRequestPolls(index: nat, polls: nat)
    | SetOutcome(reject: bool)
    | StartPass
    | ExecuteNext(result: Execution)

  function Injected(r: Req): Req {
    r.(key := None, status := Waiting, pollCount := 0, txHash := "", needsMint := false)
  }

  function Step(w: World, a: Action): World {
    match a
    case Post(id, body) => PostMint(w, id, body).0
    case Read(statusFiltered) => ReadRequests(w, statusFiltered)
    case Redemption(id, hash, symbol, quantity, owner) => Detect(w, id, hash, symbol, quantity, owner)
    case Inject(r) => w.(requests := w.requests + [Injected(r)])
    case SetPolls(polls) => w.(pollsUntilComplete := polls)
    case SetRequestPolls(i, polls) =>
      if i < |w.requests| then w.(requests := w.requests[i := w.requests[i].(pollsUntilComplete := polls)]) else w
    case SetOutcome(reject) => w.(rejectRedemptions := reject)
    case StartPass => Collect(w)
    case ExecuteNext(result) => Execute(w, result)
  }

  function Run(w: World, actions: seq<Action>): World {
    if actions == [] then w
    else Step(Run(w, actions[..|actions| - 1]), actions[|actions| - 1])
  }
}
