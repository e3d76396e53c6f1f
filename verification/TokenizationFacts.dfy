/** What the tokenization mock makes of each request it is sent, field by field, and what the
    executor makes of each mint. */
module TokenizationFacts {
  import opened Basics
  import Broker
  import opened Tokenization
  import opened TokenizationRuns

  /** A mint posted under a free key, or without one, is appended as asked and waits; posting the
      same body again, at any later time, answers with that very request and adds none. */
  lemma SamePostAnswersWithTheFirst(w: World, actions: seq<Action>, more: seq<Action>, id: nat, again: nat, b: MintBody)
    requires Untouched(w)
    requires forall r <- Run(w, actions).requests :: b.key.None? || r.key != b.key
    ensures var u := Run(w, actions);
            var posted := PostMint(u, id, b);
            && posted.1 == Created(|u.requests|)
            && posted.0.requests == u.requests + [posted.0.requests[|u.requests|]]
            && var r := posted.0.requests[|u.requests|];
               && r.kind.MintKind? && r.status.Waiting? && !r.needsMint && r.txHash == ""
               && r.id == id && r.key == b.key && r.correlation == b.correlation
               && r.symbol == b.symbol && r.quantity == b.quantity && r.wallet == b.wallet
               && r.pollCount == 0 && r.pollsUntilComplete == u.pollsUntilComplete
    ensures var v := Run(w, actions + [Post(id, b)] + more);
            b.key.Some? ==> PostMint(v, again, b) == (v, Existing(|Run(w, actions).requests|))
  {
    var u := Run(w, actions);
    TransfersSnoc(w, actions, Post(id, b), 0);
    if b.key.Some? {
      KeyNamesOneRequestForever(w, actions + [Post(id, b)], more, |u.requests|, again, b);
    }
  }

  /** A key that comes back with another body is refused, and nothing changes. */
  lemma OtherBodyIsRefused(w: World, actions: seq<Action>, i: nat, id: nat, b: MintBody)
    requires Untouched(w) && b.key.Some?
    requires i < |Run(w, actions).requests| && Run(w, actions).requests[i].key == b.key
    requires var r := Run(w, actions).requests[i];
             || r.correlation != b.correlation || r.symbol != b.symbol
             || r.quantity != b.quantity || r.wallet != b.wallet
    ensures PostMint(Run(w, actions), id, b) == (Run(w, actions), KeyReused)
  {
    KeyNamesOneRequestForever(w, actions, [], i, id, b);
    assert actions + [] == actions;
  }

  /** A redemption seen on chain under a new hash is appended as a waiting redemption of that
      amount; under a known hash nothing changes. */
  lemma RedemptionIsRecordedAsSeen(w: World, id: nat, hash: string, symbol: Broker.Symbol, quantity: real, owner: nat)
    ensures var v := Step(w, Redemption(id, hash, symbol, quantity, owner));
            if exists r <- w.requests :: r.txHash == hash then v == w
            else
              && |v.requests| == |w.requests| + 1 && v.requests[..|w.requests|] == w.requests
              && v.positions == w.positions && v.jobs == w.jobs
              && var r := v.requests[|w.requests|];
                 && r.kind.RedeemKind? && r.status.Waiting? && !r.needsMint && r.txHash == hash && r.key.None?
                 && r.symbol == symbol && r.quantity == quantity && r.wallet == owner
                 && r.pollCount == 0 && r.pollsUntilComplete == w.pollsUntilComplete
  {
  }

  /** A setting is in force from the step that makes it, and an injected request is appended as
      given, waiting. */
  lemma SettingsTakeEffect(w: World, polls: nat, i: nat, reject: bool, r: Req)
    ensures Step(w, SetPolls(polls)) == w.(pollsUntilComplete := polls)
    ensures Step(w, SetOutcome(reject)) == w.(rejectRedemptions := reject)
    ensures i < |w.requests| ==>
              Step(w, SetRequestPolls(i, polls)) ==
                w.(requests := w.requests[i := w.requests[i].(pollsUntilComplete := polls)])
    ensures var v := Step(w, Inject(r));
            && |v.requests| == |w.requests| + 1 && v.requests[..|w.requests|] == w.requests
            && var q := v.requests[|w.requests|];
               && q.symbol == r.symbol && q.quantity == r.quantity && q.wallet == r.wallet && q.kind == r.kind
               && q.pollsUntilComplete == r.pollsUntilComplete && q.key.None?
               && q.status.Waiting? && !q.needsMint && q.pollCount == 0
  {
  }

  // ----- the executor

  lemma {:induction false} EveryDueMintIsCollected(requests: seq<Req>, tokens: set<Broker.Symbol>, i: nat)
    requires i < |requests|
    ensures (exists job <- JobsOf(requests, tokens) :: job.index == i && job.request == requests[i]) <==>
            requests[i].needsMint && requests[i].symbol in tokens
  {
    var n := |requests| - 1;
    var front := JobsOf(requests[..n], tokens);
    JobsOfAreRight(requests[..n], tokens);
    if i < n {
      EveryDueMintIsCollected(requests[..n], tokens, i);
      if requests[i].needsMint && requests[i].symbol in tokens {
        var job :| job in front && job.index == i && job.request == requests[i];
        assert job in JobsOf(requests, tokens);
      }
    } else if requests[n].needsMint && requests[n].symbol in tokens {
      assert Job(n, requests[n]) in JobsOf(requests, tokens);
    }
  }

  /** A pass saves every due mint whose token is known, and no other request; due mints of an
      unknown token fail, and nothing else changes. */
  lemma PassCollectsExactlyTheDueMints(w: World, i: nat)
    requires w.jobs == [] && i < |w.requests|
    ensures var v, r := Step(w, StartPass), w.requests[i];
            && ((exists job <- v.jobs :: job.index == i && job.request == r) <==> r.needsMint && r.symbol in w.tokens)
            && |v.requests| == |w.requests| && v.positions == w.positions
            && v.requests[i] ==
                 if r.needsMint && r.symbol !in w.tokens then r.(needsMint := false, status := Broken) else r
  {
    EveryDueMintIsCollected(w.requests, w.tokens, i);
  }

  /** In every run: a transfer mined with success completes its mint with that hash and takes its
      shares; a reverted one fails it with that hash; without a receipt nothing changes, and the
      mint stays due. */
  lemma ReceiptSettlesItsMint(w: World, actions: seq<Action>, e: Execution)
    requires Untouched(w) && Run(w, actions).jobs != []
    ensures var u := Run(w, actions);
            var v, i := Step(u, ExecuteNext(e)), u.jobs[0].index;
            && i < |u.requests| == |v.requests| && v.jobs == u.jobs[1..]
            && (forall k :: 0 <= k < |u.requests| && k != i ==> v.requests[k] == u.requests[k])
            && var was, r := u.requests[i], v.requests[i];
               && was.status.Waiting? && was.needsMint
               && (!e.Mined? ==> r == was && v.positions == u.positions)
               && (e.Mined? ==> r.txHash == e.hash && !r.needsMint && SameRequest(was, r))
               && (e.Mined? && e.success ==> r.status.Done?)
               && (e.Mined? && !e.success ==> r.status.Broken? && v.positions == u.positions)
               && (e.Mined? && e.success && was.symbol != "" ==>
                     && Shares(v, was.symbol) == Shares(u, was.symbol) - was.quantity
                     && forall x: Broker.Symbol :: x != was.symbol ==> Shares(v, x) == Shares(u, x))
  {
    RunIsGood(w, actions);
    var u := Run(w, actions);
    FirstJobIsWaiting(u);
    assert JobOk(u, u.jobs[0]);
  }

  /** A completed redemption returns its shares, and the position is worth its quantity at the
      price, when one is known. */
  lemma AdjustedPositionIsRevalued(w: World, symbol: Broker.Symbol, delta: real)
    requires symbol != ""
    ensures var v := Adjust(w, symbol, delta);
            && symbol in v.positions
            && var p := v.positions[symbol];
            && p.quantity == Shares(w, symbol) + delta
            && (symbol in w.prices ==> p.marketValue == p.quantity * w.prices[symbol])
            && (symbol !in w.prices ==>
                  p.marketValue == if symbol in w.positions then w.positions[symbol].marketValue else 0.0)
            && (forall x <- w.positions :: x != symbol ==> x in v.positions && v.positions[x] == w.positions[x])
  {
  }
}
