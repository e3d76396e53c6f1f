/** What every run of the tokenization mock keeps: keys name one request, saved indices stay
    right, each mint completes once, and broker shares follow completed requests. */
module TokenizationRuns {
  import opened Basics
  import Broker
  import opened Tokenization

  type Symbol = Broker.Symbol

  // ----- the shares law

  /** What a completed request did to the broker's position in `x`. */
  function Effect(r: Req, x: Symbol): real {
    if r.symbol != x || !r.status.Done? then 0.0
    else if r.kind.RedeemKind? then r.quantity else -r.quantity
  }

  /** Completed redemptions less completed mints. */
  ghost function Net(requests: seq<Req>, x: Symbol): real {
    if requests == [] then 0.0
    else Net(requests[..|requests| - 1], x) + Effect(requests[|requests| - 1], x)
  }

  lemma NetAppend(requests: seq<Req>, r: Req, x: Symbol)
    ensures Net(requests + [r], x) == Net(requests, x) + Effect(r, x)
  {
    assert (requests + [r])[..|requests|] == requests;
  }

  lemma {:induction false} NetUpdate(requests: seq<Req>, i: nat, r: Req, x: Symbol)
    requires i < |requests|
    ensures Net(requests[i := r], x) == Net(requests, x) - Effect(requests[i], x) + Effect(r, x)
  {
    var n := |requests| - 1;
    if i < n {
      NetUpdate(requests[..n], i, r, x);
      assert requests[i := r][..n] == requests[..n][i := r];
    } else {
      assert requests[i := r][..n] == requests[..n];
    }
  }

  lemma {:induction false} NetPointwise(a: seq<Req>, b: seq<Req>, x: Symbol)
    requires |a| == |b| && forall i :: 0 <= i < |a| ==> Effect(a[i], x) == Effect(b[i], x)
    ensures Net(a, x) == Net(b, x)
  {
    if a != [] {
      NetPointwise(a[..|a| - 1], b[..|b| - 1], x);
    }
  }

  ghost predicate SameShares(v: World, w: World) {
    forall x: Symbol :: x != "" ==> SameSharesIn(v, w, x)
  }

  ghost predicate SameSharesIn(v: World, w: World, x: Symbol) {
    Shares(v, x) - Net(v.requests, x) == Shares(w, x) - Net(w.requests, x)
  }

  lemma AdjustMovesShares(w: World, symbol: Symbol, delta: real, x: Symbol)
    requires x != ""
    ensures Shares(Adjust(w, symbol, delta), x) == Shares(w, x) + if x == symbol then delta else 0.0
  {
  }

  /** Completing one request and adjusting the position by its effect keeps the law. */
  lemma CompletionKeepsShares(w: World, i: nat, r: Req, delta: real)
    requires i < |w.requests| && r.symbol == w.requests[i].symbol && !w.requests[i].status.Done?
    requires delta == Effect(r, r.symbol)
    ensures SameShares(w, Adjust(w.(requests := w.requests[i := r]), r.symbol, delta))
  {
    var v := w.(requests := w.requests[i := r]);
    var after := Adjust(v, r.symbol, delta);
    forall x: Symbol | x != "" ensures SameSharesIn(w, after, x) {
      NetUpdate(w.requests, i, r, x);
      AdjustMovesShares(v, r.symbol, delta, x);
    }
  }

  lemma QuietUpdateKeepsShares(w: World, i: nat, r: Req)
    requires i < |w.requests| && forall x :: Effect(r, x) == Effect(w.requests[i], x)
    ensures SameShares(w, w.(requests := w.requests[i := r]))
  {
    var v := w.(requests := w.requests[i := r]);
    forall x: Symbol | x != "" ensures SameSharesIn(w, v, x) {
      NetUpdate(w.requests, i, r, x);
    }
  }

  lemma QuietAppendKeepsShares(w: World, r: Req)
    requires !r.status.Done?
    ensures SameShares(w, w.(requests := w.requests + [r]))
  {
    var v := w.(requests := w.requests + [r]);
    forall x: Symbol | x != "" ensures SameSharesIn(w, v, x) {
      NetAppend(w.requests, r, x);
    }
  }

  lemma SameSharesTransitive(u: World, v: World, w: World)
    requires SameShares(u, v) && SameShares(v, w)
    ensures SameShares(u, w)
  {
    forall x: Symbol | x != "" ensures SameSharesIn(u, w, x) {
      assert SameSharesIn(u, v, x) && SameSharesIn(v, w, x);
    }
  }

  // ----- identity

  /** What never changes of a request. */
  predicate SameRequest(r: Req, q: Req) {
    && r.id == q.id && r.key == q.key && r.correlation == q.correlation && r.symbol == q.symbol
    && r.quantity == q.quantity && r.wallet == q.wallet && r.kind == q.kind
  }

  /** Requests are only added at the end; an index names the same request ever after, and a
      settled request stays settled. */
  ghost predicate Extends(v: World, w: World) {
    && |v.requests| <= |w.requests|
    && forall i :: 0 <= i < |v.requests| ==>
         && SameRequest(v.requests[i], w.requests[i])
         && (!v.requests[i].status.Waiting? ==> w.requests[i].status == v.requests[i].status)
  }

  // ----- the invariant

  ghost predicate RequestsOk(w: World) {
    forall r <- w.requests :: r.needsMint ==> r.kind.MintKind? && r.status.Waiting?
  }

  /** Every saved index names the waiting mint it was saved for, and no two jobs share one. */
  ghost predicate JobsOk(w: World) {
    && (forall j <- w.jobs :: JobOk(w, j))
    && (forall a, b :: 0 <= a < b < |w.jobs| ==> w.jobs[a].index != w.jobs[b].index)
  }

  predicate JobOk(w: World, j: Job) {
    && j.index < |w.requests|
    && w.requests[j.index].needsMint
    && SameRequest(w.requests[j.index], j.request)
  }

  ghost predicate UniqueKeys(w: World) {
    forall a, b :: 0 <= a < b < |w.requests| ==> !HasKey(w.requests[b], w.requests[a].key)
  }

  /** One receipt a request at most; exactly the completed mints and the reverted ones have
      theirs. */
  ghost predicate LandedOk(w: World) {
    && (forall i <- w.landed :: i < |w.requests| && w.requests[i].kind.MintKind?
                                && !w.requests[i].status.Waiting? && !w.requests[i].needsMint)
    && (forall i :: multiset(w.landed)[i] <= 1)
    && (forall i :: 0 <= i < |w.requests| && w.requests[i].kind.MintKind? && w.requests[i].status.Done? ==>
          i in w.landed)
  }

  ghost predicate Inv(w: World) { RequestsOk(w) && JobsOk(w) && UniqueKeys(w) && LandedOk(w) }

  /** What each step owes. */
  ghost predicate Good(v: World, w: World) { Inv(w) && Extends(v, w) && SameShares(v, w) }

  // ----- the steps

  lemma AppendIsGood(w: World, r: Req)
    requires Inv(w) && r.status.Waiting? && !r.needsMint && forall q <- w.requests :: !HasKey(q, r.key)
    ensures Good(w, w.(requests := w.requests + [r]))
  {
    QuietAppendKeepsShares(w, r);
    var v := w.(requests := w.requests + [r]);
    assert forall i <- w.landed :: v.requests[i] == w.requests[i];
    assert forall j <- w.jobs :: JobOk(w, j) ==> JobOk(v, j);
    assert forall a :: 0 <= a < |w.requests| ==> w.requests[a] in w.requests && !HasKey(w.requests[a], r.key);
  }

  /** Changing one waiting request that no job holds. */
  lemma UpdateKeepsInv(w: World, i: nat, r: Req)
    requires Inv(w) && i < |w.requests| && w.requests[i].status.Waiting?
    requires SameRequest(w.requests[i], r)
    requires r.needsMint ==> r.kind.MintKind? && r.status.Waiting?
    requires w.requests[i].needsMint ==> r.needsMint
    requires r.kind.MintKind? ==> !r.status.Done?
    ensures var v := w.(requests := w.requests[i := r]); Inv(v) && Extends(w, v)
  {
    var v := w.(requests := w.requests[i := r]);
    forall j | j in w.jobs ensures JobOk(v, j) { assert JobOk(w, j); }
    forall k | k in w.landed ensures v.requests[k] == w.requests[k] {
      assert !w.requests[k].status.Waiting?;
    }
  }

  lemma RedemptionIsGood(w: World, i: nat, r: Req)
    requires Inv(w) && i < |w.requests| && w.requests[i].status.Waiting? && !w.requests[i].needsMint
    requires SameRequest(w.requests[i], r) && r.kind.RedeemKind? && r.status.Done? && !r.needsMint
    ensures Good(w, Adjust(w.(requests := w.requests[i := r]), r.symbol, r.quantity))
  {
    UpdateKeepsInv(w, i, r);
    CompletionKeepsShares(w, i, r, r.quantity);
    AdjustKeepsRest(w.(requests := w.requests[i := r]), r.symbol, r.quantity);
  }

  /** Changing a waiting request without completing it. */
  lemma QuietUpdateIsGood(w: World, i: nat, r: Req)
    requires Inv(w) && i < |w.requests| && w.requests[i].status.Waiting? && !w.requests[i].needsMint
    requires SameRequest(w.requests[i], r) && !r.status.Done?
    requires r.needsMint ==> r.kind.MintKind? && r.status.Waiting?
    ensures Good(w, w.(requests := w.requests[i := r]))
  {
    UpdateKeepsInv(w, i, r);
    QuietUpdateKeepsShares(w, i, r);
  }

  lemma PollAtIsGood(w: World, i: nat, v: World)
    requires Inv(w) && i < |w.requests| && v == PollAt(w, i)
    ensures Good(w, v)
  {
    var r := w.requests[i];
    if !r.status.Waiting? || r.needsMint {
      GoodReflexive(w);
    } else {
      var counted := r.(pollCount := r.pollCount + 1);
      if counted.pollCount < counted.pollsUntilComplete {
        QuietUpdateIsGood(w, i, counted);
      } else if r.kind.MintKind? {
        QuietUpdateIsGood(w, i, counted.(needsMint := true));
      } else if w.rejectRedemptions {
        QuietUpdateIsGood(w, i, counted.(status := Refused));
      } else {
        RedemptionIsGood(w, i, counted.(status := Done));
      }
    }
  }

  lemma AdjustKeepsRest(w: World, symbol: Symbol, delta: real)
    ensures Adjust(w, symbol, delta) == w.(positions := Adjust(w, symbol, delta).positions)
    ensures Inv(w) <==> Inv(Adjust(w, symbol, delta))
  {
    var v := Adjust(w, symbol, delta);
    assert forall j :: JobOk(w, j) <==> JobOk(v, j);
  }

  lemma GoodTransitive(u: World, v: World, w: World)
    requires Good(u, v) && Good(v, w)
    ensures Good(u, w)
  {
    SameSharesTransitive(u, v, w);
  }

  lemma GoodReflexive(w: World)
    requires Inv(w)
    ensures Good(w, w)
  {
  }

  lemma NextPollIsGood(u: World, v: World, i: nat, w: World)
    requires Good(u, v) && i < |v.requests| && w == PollAt(v, i)
    ensures Good(u, w)
  {
    PollAtIsGood(v, i, w);
    GoodTransitive(u, v, w);
  }

  lemma {:induction false} PollFirstIsGood(w: World, n: nat, v: World)
    requires Inv(w) && n <= |w.requests| && v == PollFirst(w, n)
    ensures Good(w, v)
  {
    if n == 0 {
      GoodReflexive(w);
    } else {
      var u := PollFirst(w, n - 1);
      PollFirstIsGood(w, n - 1, u);
      NextPollIsGood(w, u, n - 1, v);
    }
  }

  lemma {:induction false} JobsOfAreRight(requests: seq<Req>, tokens: set<Symbol>)
    ensures var jobs := JobsOf(requests, tokens);
            && (forall j <- jobs ::
                  && j.index < |requests| && requests[j.index].needsMint && requests[j.index].symbol in tokens
                  && requests[j.index] == j.request)
            && (forall a, b :: 0 <= a < b < |jobs| ==> jobs[a].index < jobs[b].index)
  {
    if requests != [] {
      JobsOfAreRight(requests[..|requests| - 1], tokens);
    }
  }

  lemma CollectIsGood(w: World)
    requires Inv(w)
    ensures Good(w, Collect(w))
  {
    if w.jobs == [] {
      var v := Collect(w);
      JobsOfAreRight(w.requests, w.tokens);
      forall j | j in v.jobs ensures JobOk(v, j) {
        assert v.requests[j.index] == w.requests[j.index];
      }
      forall x: Symbol | x != "" ensures SameSharesIn(w, v, x) {
        assert forall i :: 0 <= i < |w.requests| ==> w.requests[i] in w.requests;
        NetPointwise(w.requests, v.requests, x);
      }
      forall r | r in v.requests ensures r.needsMint ==> r.kind.MintKind? && r.status.Waiting? {
        var i :| 0 <= i < |v.requests| && v.requests[i] == r;
        assert w.requests[i] in w.requests;
      }
      forall k | k in w.landed ensures v.requests[k] == w.requests[k] {
      }
      assert LandedOk(v);
      assert Extends(w, v) by {
        forall i | 0 <= i < |w.requests| && !w.requests[i].status.Waiting? ensures v.requests[i] == w.requests[i] {
          assert w.requests[i] in w.requests;
        }
      }
    }
  }

  /** The first job done, with `r` in place of the request it names. */
  function WithReceipt(w: World, r: Req): World
    requires w.jobs != [] && w.jobs[0].index < |w.requests|
  {
    var i := w.jobs[0].index;
    w.(jobs := w.jobs[1..], landed := w.landed + [i], requests := w.requests[i := r])
  }

  function Receipted(r: Req, hash: string, success: bool): Req {
    r.(txHash := hash, needsMint := false, status := if success then Done else Broken)
  }

  lemma FirstJobIsWaiting(w: World)
    requires Inv(w) && w.jobs != []
    ensures var job := w.jobs[0];
            && job.index < |w.requests| && job.index !in w.landed
            && w.requests[job.index].kind.MintKind? && w.requests[job.index].status.Waiting?
            && w.requests[job.index].quantity == job.request.quantity
  {
    assert JobOk(w, w.jobs[0]);
    assert w.requests[w.jobs[0].index] in w.requests;
  }

  /** The receipt lands on the request the index was saved for: still the same waiting mint,
      which has no receipt yet. */
  lemma ReceiptKeepsInv(w: World, r: Req)
    requires Inv(w) && w.jobs != []
    requires w.jobs[0].index < |w.requests| && SameRequest(w.requests[w.jobs[0].index], r)
    requires !r.needsMint && !r.status.Waiting?
    ensures Inv(WithReceipt(w, r)) && Extends(w, WithReceipt(w, r))
  {
    FirstJobIsWaiting(w);
    var v := WithReceipt(w, r);
    assert multiset(v.landed) == multiset(w.landed) + multiset{w.jobs[0].index};
    forall j | j in v.jobs ensures JobOk(v, j) {
      var k :| 0 <= k < |v.jobs| && v.jobs[k] == j;
      assert w.jobs[k + 1] == j && JobOk(w, j) && w.jobs[0].index != w.jobs[k + 1].index;
    }
  }

  lemma ReceiptKeepsShares(w: World, v: World, i: nat, r: Req, success: bool)
    requires i < |w.requests| && !w.requests[i].status.Done? && r.symbol == w.requests[i].symbol
    requires r.kind.MintKind? && r.status == if success then Done else Broken
    requires v.requests == w.requests[i := r] && v.positions == w.positions && v.prices == w.prices
    ensures SameShares(w, if success then Adjust(v, r.symbol, -r.quantity) else v)
  {
    var quiet := w.(requests := w.requests[i := r]);
    if success {
      CompletionKeepsShares(w, i, r, -r.quantity);
      SharesReadTwoFields(w, Adjust(quiet, r.symbol, -r.quantity), Adjust(v, r.symbol, -r.quantity));
    } else {
      QuietUpdateKeepsShares(w, i, r);
      SharesReadTwoFields(w, quiet, v);
    }
  }

  lemma ReceiptLands(w: World, hash: string, success: bool)
    requires w.jobs != [] && w.jobs[0].index < |w.requests|
    requires w.requests[w.jobs[0].index].quantity == w.jobs[0].request.quantity
    ensures var r := Receipted(w.requests[w.jobs[0].index], hash, success);
            var v := WithReceipt(w, r);
            Execute(w, Mined(hash, success)) == if success then Adjust(v, r.symbol, -r.quantity) else v
  {
  }

  lemma AdjustedIsGood(u: World, v: World, symbol: Symbol, delta: real)
    requires Inv(v) && Extends(u, v) && SameShares(u, Adjust(v, symbol, delta))
    ensures Good(u, Adjust(v, symbol, delta))
  {
    AdjustKeepsRest(v, symbol, delta);
  }

  lemma ReceiptIsGood(w: World, r: Req, v: World)
    requires Inv(w) && w.jobs != [] && w.jobs[0].index < |w.requests| && v == WithReceipt(w, r)
    requires SameRequest(w.requests[w.jobs[0].index], r) && !r.needsMint && (r.status.Done? || r.status.Broken?)
    ensures Good(w, if r.status.Done? then Adjust(v, r.symbol, -r.quantity) else v)
  {
    FirstJobIsWaiting(w);
    ReceiptKeepsInv(w, r);
    ReceiptKeepsShares(w, v, w.jobs[0].index, r, r.status.Done?);
    if r.status.Done? {
      AdjustedIsGood(w, v, r.symbol, -r.quantity);
    }
  }

  lemma LandIsGood(w: World, hash: string, success: bool)
    requires Inv(w) && w.jobs != []
    ensures Good(w, Execute(w, Mined(hash, success)))
  {
    FirstJobIsWaiting(w);
    var r := Receipted(w.requests[w.jobs[0].index], hash, success);
    ReceiptLands(w, hash, success);
    ReceiptIsGood(w, r, WithReceipt(w, r));
  }

  lemma SharesReadTwoFields(u: World, v: World, w: World)
    requires SameShares(u, v) && v.requests == w.requests && v.positions == w.positions
    ensures SameShares(u, w)
  {
    forall x: Symbol | x != "" ensures SameSharesIn(u, w, x) {
      assert SameSharesIn(u, v, x);
    }
  }

  lemma ExecuteIsGood(w: World, e: Execution)
    requires Inv(w)
    ensures Good(w, Execute(w, e))
  {
    if w.jobs != [] {
      var v := Execute(w, e);
      match e {
        case Mined(hash, success) => LandIsGood(w, hash, success);
        case _ =>
          forall j | j in v.jobs ensures JobOk(v, j) {
            assert j in w.jobs && JobOk(w, j);
          }
          SharesReadTwoFields(w, w, v);
      }
    }
  }

  lemma SetRequestPollsIsGood(w: World, i: nat, polls: nat)
    requires Inv(w) && i < |w.requests|
    ensures Good(w, w.(requests := w.requests[i := w.requests[i].(pollsUntilComplete := polls)]))
  {
    var r := w.requests[i].(pollsUntilComplete := polls);
    var v := w.(requests := w.requests[i := r]);
    QuietUpdateKeepsShares(w, i, r);
    assert w.requests[i] in w.requests;
    forall j | j in w.jobs ensures JobOk(v, j) { assert JobOk(w, j); }
  }

  lemma StepIsGood(w: World, a: Action)
    requires Inv(w)
    ensures Good(w, Step(w, a))
  {
    match a {
      case Post(id, b) =>
        if FindKey(w.requests, b.key).None? { AppendIsGood(w, NewMint(w, id, b)); }
      case Read(statusFiltered) => PollFirstIsGood(w, if statusFiltered then 0 else |w.requests|, Step(w, a));
      case Redemption(id, hash, symbol, quantity, owner) =>
        if !KnownTx(w, hash) {
          var v := Detect(w, id, hash, symbol, quantity, owner);
          AppendIsGood(w, v.requests[|w.requests|]);
        }
      case Inject(r) => AppendIsGood(w, Injected(r));
      case SetRequestPolls(i, polls) => if i < |w.requests| { SetRequestPollsIsGood(w, i, polls); }
      case StartPass => CollectIsGood(w);
      case ExecuteNext(result) => ExecuteIsGood(w, result);
      case SetPolls(_) | SetOutcome(_) =>
        var v := Step(w, a);
        forall j | j in w.jobs ensures JobOk(v, j) { assert JobOk(w, j); }
        SharesReadTwoFields(w, w, v);
    }
  }

  lemma {:induction false} RunIsGood(w: World, actions: seq<Action>)
    requires Inv(w)
    ensures Good(w, Run(w, actions))
  {
    if actions != [] {
      var before := Run(w, actions[..|actions| - 1]);
      RunIsGood(w, actions[..|actions| - 1]);
      StepIsGood(before, actions[|actions| - 1]);
      GoodTransitive(w, before, Run(w, actions));
    }
  }

  // ----- what every run promises

  /** A mock that has served nothing yet. */
  predicate Untouched(w: World) { w.requests == [] && w.jobs == [] && w.landed == [] }

  /** Broker shares in every symbol change by completed redemptions less completed mints. */
  lemma SharesFollowCompletedRequests(w: World, actions: seq<Action>, x: Symbol)
    requires Untouched(w) && x != ""
    ensures Shares(Run(w, actions), x) == Shares(w, x) + Net(Run(w, actions).requests, x)
  {
    RunIsGood(w, actions);
    assert SameSharesIn(w, Run(w, actions), x);
  }

  lemma {:induction false} FindKeyFinds(requests: seq<Req>, i: nat)
    requires i < |requests| && requests[i].key.Some?
    requires forall a, b :: 0 <= a < b < |requests| ==> !HasKey(requests[b], requests[a].key)
    ensures FindKey(requests, requests[i].key) == Some(i)
  {
    var k := FindKey(requests, requests[i].key);
    assert requests[i] in requests;
    assert k.Some?;
    assert k.value < i ==> HasKey(requests[i], requests[k.value].key);
  }

  lemma RunOfConcat(w: World, a: seq<Action>, b: seq<Action>)
    ensures Run(w, a + b) == Run(Run(w, a), b)
    decreases |b|
  {
    if b == [] {
      assert a + b == a;
    } else {
      assert (a + b)[..|a + b| - 1] == a + b[..|b| - 1];
      RunOfConcat(w, a, b[..|b| - 1]);
    }
  }

  /** A key names one request for the rest of the run: posting it again changes nothing and
      answers with that request, or refuses when the body differs. */
  lemma KeyNamesOneRequestForever(w: World, actions: seq<Action>, more: seq<Action>, i: nat, id: nat, b: MintBody)
    requires Untouched(w)
    requires i < |Run(w, actions).requests| && Run(w, actions).requests[i].key == b.key && b.key.Some?
    ensures var v := Run(w, actions + more);
            && i < |v.requests| && v.requests[i].key == b.key
            && (forall k :: 0 <= k < |v.requests| && v.requests[k].key == b.key ==> k == i)
            && PostMint(v, id, b) == (v, if SameMint(Run(w, actions).requests[i], b) then Existing(i) else KeyReused)
  {
    var u := Run(w, actions);
    RunIsGood(w, actions);
    RunIsGood(u, more);
    RunOfConcat(w, actions, more);
    var v := Run(w, actions + more);
    assert SameRequest(u.requests[i], v.requests[i]);
    FindKeyFinds(v.requests, i);
    forall k | 0 <= k < |v.requests| && v.requests[k].key == b.key ensures k == i {
      FindKeyFinds(v.requests, k);
    }
  }

  /** Whenever the executor takes the lock again, the index it saved names the very request it
      collected, a mint still waiting for execution; no two saved indices are the same. */
  lemma SavedIndexStillNamesItsRequest(w: World, actions: seq<Action>, k: nat)
    requires Untouched(w) && k < |Run(w, actions).jobs|
    ensures var v := Run(w, actions);
            var job := v.jobs[k];
            && job.index < |v.requests|
            && SameRequest(v.requests[job.index], job.request)
            && v.requests[job.index].kind.MintKind? && v.requests[job.index].status.Waiting?
            && (forall other :: 0 <= other < |v.jobs| && v.jobs[other].index == job.index ==> other == k)
  {
    RunIsGood(w, actions);
    var v := Run(w, actions);
    assert JobOk(v, v.jobs[k]);
    assert v.requests[v.jobs[k].index] in v.requests;
  }

  /** An index keeps naming the same request, and a settled one keeps its status. */
  lemma RequestsKeepTheirPlace(w: World, actions: seq<Action>, more: seq<Action>, i: nat)
    requires Untouched(w) && i < |Run(w, actions).requests|
    ensures var u, v := Run(w, actions), Run(w, actions + more);
            && i < |v.requests| && SameRequest(u.requests[i], v.requests[i])
            && (!u.requests[i].status.Waiting? ==> v.requests[i].status == u.requests[i].status)
  {
    RunIsGood(w, actions);
    RunIsGood(Run(w, actions), more);
    RunOfConcat(w, actions, more);
  }

  // ----- transfers on chain

  /** In state `w`, action `a` makes the executor send a transfer for request `i`. */
  ghost predicate Sends(w: World, a: Action, i: nat) {
    a.ExecuteNext? && !a.result.NotSent? && w.jobs != [] && w.jobs[0].index == i
  }

  /** The k-th action sends a transfer for request `i` and gets no receipt. */
  ghost predicate LosesReceipt(w: World, actions: seq<Action>, k: nat, i: nat)
    requires k < |actions|
  {
    actions[k] == ExecuteNext(ReceiptLost) && Sends(Run(w, actions[..k]), actions[k], i)
  }

  /** The transfers a run sends for request `i`. */
  ghost function Transfers(w: World, actions: seq<Action>, i: nat): nat {
    if actions == [] then 0
    else
      var front, last := actions[..|actions| - 1], actions[|actions| - 1];
      Transfers(w, front, i) + if Sends(Run(w, front), last, i) then 1 else 0
  }

  ghost function LostReceipts(w: World, actions: seq<Action>, i: nat): nat {
    if actions == [] then 0
    else
      LostReceipts(w, actions[..|actions| - 1], i) + if LosesReceipt(w, actions, |actions| - 1, i) then 1 else 0
  }

  lemma {:induction false} NoneLostIff(w: World, actions: seq<Action>, i: nat)
    ensures LostReceipts(w, actions, i) == 0 <==> forall k :: 0 <= k < |actions| ==> !LosesReceipt(w, actions, k, i)
  {
    if actions != [] {
      var front := actions[..|actions| - 1];
      NoneLostIff(w, front, i);
      forall k | 0 <= k < |front| ensures LosesReceipt(w, front, k, i) <==> LosesReceipt(w, actions, k, i) {
        assert front[..k] == actions[..k];
      }
    }
  }

  lemma PollFirstLands(w: World, n: nat)
    requires n <= |w.requests|
    ensures PollFirst(w, n).landed == w.landed
  {
  }

  lemma StepLands(w: World, a: Action, i: nat)
    ensures multiset(Step(w, a).landed)[i] ==
            multiset(w.landed)[i] + if Sends(w, a, i) && a.result.Mined? then 1 else 0
  {
    match a {
      case Read(_) => PollFirstLands(w, |w.requests|);
      case ExecuteNext(result) => ExecuteLands(w, result, i);
      case _ =>
    }
  }

  lemma ExecuteLands(w: World, e: Execution, i: nat)
    ensures multiset(Execute(w, e).landed)[i] ==
            multiset(w.landed)[i] + if Sends(w, ExecuteNext(e), i) && e.Mined? then 1 else 0
  {
  }

  /** Every transfer sent either landed or lost its receipt. */
  lemma {:induction false} TransfersLandOrAreLost(w: World, actions: seq<Action>, i: nat)
    requires w.landed == []
    ensures Transfers(w, actions, i) == multiset(Run(w, actions).landed)[i] + LostReceipts(w, actions, i)
  {
    if actions != [] {
      var front, last := actions[..|actions| - 1], actions[|actions| - 1];
      TransfersLandOrAreLost(w, front, i);
      StepLands(Run(w, front), last, i);
    }
  }

  /** A completed mint deducted its shares once, but its tokens moved once more for every
      receipt that was lost: exactly one transfer if and only if no transfer was sent for it
      whose receipt did not come back. */
  lemma CompletedMintTransferredOnceIff(w: World, actions: seq<Action>, i: nat)
    requires Untouched(w)
    requires var v := Run(w, actions); i < |v.requests| && v.requests[i].kind.MintKind? && v.requests[i].status.Done?
    ensures multiset(Run(w, actions).landed)[i] == 1
    ensures Transfers(w, actions, i) == 1 + LostReceipts(w, actions, i)
    ensures Transfers(w, actions, i) == 1 <==> forall k :: 0 <= k < |actions| ==> !LosesReceipt(w, actions, k, i)
  {
    RunIsGood(w, actions);
    var v := Run(w, actions);
    assert i in v.landed;
    assert multiset(v.landed)[i] > 0;
    TransfersLandOrAreLost(w, actions, i);
    NoneLostIff(w, actions, i);
  }

  /** It does happen: the receipt of the first transfer is lost, the request still waits for
      execution, and the next pass transfers again. */
  lemma LostReceiptTransfersTwice(w: World, b: MintBody)
    requires Untouched(w) && w.pollsUntilComplete <= 1 && b.symbol in w.tokens && b.key.None?
    ensures var actions := [Post(0, b), Read(false)] + Pass(ReceiptLost) + Pass(Mined("0x2", true));
            var v := Run(w, actions);
            |v.requests| == 1 && v.requests[0].status.Done? && Transfers(w, actions, 0) == 2
  {
    var due := [Post(0, b), Read(false)];
    PostedThenPolled(w, b);
    var u := Run(w, due);
    PassSends(w, due, ReceiptLost);
    assert Execute(Collected(u), ReceiptLost) == u;
    PassSends(w, due + Pass(ReceiptLost), Mined("0x2", true));
  }

  /** A pass of the executor over one job. */
  function Pass(e: Execution): seq<Action> { [StartPass, ExecuteNext(e)] }

  lemma TransfersSnoc(w: World, actions: seq<Action>, a: Action, i: nat)
    ensures Run(w, actions + [a]) == Step(Run(w, actions), a)
    ensures Transfers(w, actions + [a], i) == Transfers(w, actions, i) + if Sends(Run(w, actions), a, i) then 1 else 0
  {
    assert (actions + [a])[..|actions|] == actions;
  }

  lemma PostedThenPolled(w: World, b: MintBody)
    requires Untouched(w) && w.pollsUntilComplete <= 1 && b.key.None?
    ensures Run(w, [Post(0, b), Read(false)])
         == w.(requests := [NewMint(w, 0, b).(pollCount := 1, needsMint := true)])
    ensures Transfers(w, [Post(0, b), Read(false)], 0) == 0
  {
    var posted := w.(requests := [NewMint(w, 0, b)]);
    assert Run(w, [Post(0, b)]) == posted && Transfers(w, [Post(0, b)], 0) == 0 by {
      TransfersSnoc(w, [], Post(0, b), 0);
      assert [] + [Post(0, b)] == [Post(0, b)];
    }
    TransfersSnoc(w, [Post(0, b)], Read(false), 0);
    assert [Post(0, b)] + [Read(false)] == [Post(0, b), Read(false)];
    assert PollFirst(posted, 1) == PollAt(PollFirst(posted, 0), 0);
  }

  /** One due mint with a known token, and no pass under way. */
  predicate OneDue(w: World) {
    |w.requests| == 1 && w.requests[0].needsMint && w.requests[0].symbol in w.tokens && w.jobs == []
  }

  /** A pass over one due mint sends one transfer. */
  lemma PassSends(w: World, actions: seq<Action>, e: Execution)
    requires OneDue(Run(w, actions)) && !e.NotSent?
    ensures Run(w, actions + Pass(e)) == Execute(Collected(Run(w, actions)), e)
    ensures Transfers(w, actions + Pass(e), 0) == Transfers(w, actions, 0) + 1
  {
    var collecting := actions + [StartPass];
    PassCollects(Run(w, actions));
    TransfersSnoc(w, actions, StartPass, 0);
    assert Run(w, collecting) == Collected(Run(w, actions));
    assert actions + Pass(e) == collecting + [ExecuteNext(e)];
    TransfersSnoc(w, collecting, ExecuteNext(e), 0);
  }

  function Collected(w: World): World
    requires OneDue(w)
  {
    w.(jobs := [Job(0, w.requests[0])])
  }

  /** Collecting saves the mint's index and changes nothing else. */
  lemma PassCollects(w: World)
    requires OneDue(w)
    ensures Collect(w) == Collected(w)
  {
    assert JobsOf(w.requests[..0], w.tokens) == [];
    assert Collect(w).requests == w.requests;
    assert Collect(w).jobs == Collected(w).jobs;
  }
}
