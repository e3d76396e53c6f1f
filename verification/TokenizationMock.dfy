/** The tokenization mock's shared state, updated in place by its endpoints and its executor.
    Each method is proved to take the step of the value model. */
module TokenizationMock {
  import opened Basics
  import Broker
  import opened Tokenization

  type Symbol = Broker.Symbol

  predicate Wanted(r: Req, kind: Option<Kind>, status: Option<RequestStatus>) {
    (kind.None? || r.kind == kind.value) && (status.None? || r.status == status.value)
  }

  /** The requests a filter keeps, in order. */
  function Listed(requests: seq<Req>, kind: Option<Kind>, status: Option<RequestStatus>): seq<Req> {
    if requests == [] then []
    else
      var n := |requests| - 1;
      var front := Listed(requests[..n], kind, status);
      if Wanted(requests[n], kind, status) then front + [requests[n]] else front
  }

  lemma {:induction false} ListedIsTheFilter(
    requests: seq<Req>, kind: Option<Kind>, status: Option<RequestStatus>, r: Req)
    ensures multiset(Listed(requests, kind, status))[r] ==
            if (kind.None? || kind == Some(r.kind)) && (status.None? || status == Some(r.status))
            then multiset(requests)[r] else 0
  {
    if requests != [] {
      var n := |requests| - 1;
      ListedIsTheFilter(requests[..n], kind, status, r);
      assert requests == requests[..n] + [requests[n]];
    }
  }

  class TokenizationState {
    var requests: seq<Req>
    var pollsUntilComplete: nat
    var rejectRedemptions: bool
    var positions: map<Symbol, Broker.Position>
    var prices: map<Symbol, real>
    const tokens: set<Symbol>
    /** The mints the executor collected and has not tried yet. */
    var jobs: seq<Job>
    ghost var landed: seq<nat>

    ghost function Value(): World
      reads this
    {
      World(requests, pollsUntilComplete, rejectRedemptions, positions, prices, tokens, jobs, landed)
    }

    constructor (positions: map<Symbol, Broker.Position>, prices: map<Symbol, real>, tokens: set<Symbol>)
      ensures Value() == World([], 2, false, positions, prices, tokens, [], [])
    {
      requests, jobs, landed := [], [], [];
      pollsUntilComplete, rejectRedemptions := 2, false;
      this.positions, this.prices, this.tokens := positions, prices, tokens;
    }

    method AdjustPosition(symbol: Symbol, delta: real)
      modifies this`positions
      ensures Value() == Adjust(old(Value()), symbol, delta)
    {
      if symbol != "" {
        if symbol in positions {
          var p := positions[symbol];
          p := p.(quantity := p.quantity + delta);
          if symbol in prices { p := p.(marketValue := Broker.Worth(p.quantity, prices[symbol])); }
          positions := positions[symbol := p];
        } else {
          var marketValue := if symbol in prices then Broker.Worth(delta, prices[symbol]) else 0.0;
          positions := positions[symbol := Broker.Position(delta, marketValue)];
        }
      }
    }

    /** A repeated key answers with the request it named first, or is refused. */
    method PostMint(id: nat, b: MintBody) returns (answer: MintAnswer)
      modifies this`requests
      ensures (Value(), answer) == Tokenization.PostMint(old(Value()), id, b)
    {
      var i := 0;
      while i < |requests|
        invariant i <= |requests|
        invariant FindKey(requests[..i], b.key) == None
      {
        assert requests[..i + 1][..i] == requests[..i];
        if b.key.Some? && requests[i].key == b.key {
          FirstKeyDecides(requests, i + 1, b.key);
          if SameMint(requests[i], b) { return Existing(i); }
          return KeyReused;
        }
        i := i + 1;
      }
      assert requests[..i] == requests;
      answer := Created(|requests|);
      requests := requests + [Req(id, b.key, b.correlation, b.symbol, b.quantity, b.wallet,
                                  Waiting, 0, pollsUntilComplete, MintKind, "", false)];
    }

    /** A read without a status filter moves every waiting request on; one with a status filter
        changes nothing. Both list what the filters keep afterwards. */
    method ReadRequests(kind: Option<Kind>, status: Option<RequestStatus>) returns (listed: seq<Req>)
      modifies this`requests, this`positions
      ensures Value() == Tokenization.ReadRequests(old(Value()), status.Some?)
      ensures listed == Listed(requests, kind, status)
    {
      if status.None? { PollAll(); }
      listed := List(kind, status);
    }

    method PollAll()
      modifies this`requests, this`positions
      ensures Value() == PollFirst(old(Value()), |old(requests)|)
    {
      var i := 0;
      while i < |requests|
        invariant i <= |requests| == |old(requests)|
        invariant Value() == PollFirst(old(Value()), i)
      {
        PollRequest(i);
        i := i + 1;
      }
    }

    method List(kind: Option<Kind>, status: Option<RequestStatus>) returns (listed: seq<Req>)
      ensures listed == Listed(requests, kind, status)
    {
      listed := [];
      var i := 0;
      while i < |requests|
        invariant i <= |requests|
        invariant listed == Listed(requests[..i], kind, status)
      {
        assert requests[..i + 1][..i] == requests[..i];
        if Wanted(requests[i], kind, status) { listed := listed + [requests[i]]; }
        i := i + 1;
      }
      assert requests[..i] == requests;
    }

    method PollRequest(i: nat)
      requires i < |requests|
      modifies this`requests, this`positions
      ensures Value() == PollAt(old(Value()), i)
    {
      var r := requests[i];
      if r.status.Waiting? && !r.needsMint {
        r := r.(pollCount := r.pollCount + 1);
        if r.pollCount >= r.pollsUntilComplete {
          if r.kind.MintKind? {
            r := r.(needsMint := true);
          } else if rejectRedemptions {
            r := r.(status := Refused);
          } else {
            r := r.(status := Done);
            AdjustPosition(r.symbol, r.quantity);
          }
        }
        requests := requests[i := r];
      }
    }

    /** Records a redemption once per transaction hash. */
    method DetectRedemption(id: nat, hash: string, symbol: Symbol, quantity: real, owner: nat)
      modifies this`requests
      ensures Value() == Detect(old(Value()), id, hash, symbol, quantity, owner)
    {
      var i := 0;
      while i < |requests|
        invariant i <= |requests|
        invariant forall r <- requests[..i] :: r.txHash != hash
      {
        if requests[i].txHash == hash {
          assert requests[i] in requests;
          return;
        }
        i := i + 1;
      }
      assert requests[..i] == requests;
      requests := requests +
        [Req(id, None, "", symbol, quantity, owner, Waiting, 0, pollsUntilComplete, RedeemKind, hash, false)];
    }

    /** The executor's first half of a pass, under the lock: collect the due mints whose token
        is known, then fail the others. */
    method CollectPendingMints()
      requires jobs == []
      modifies this`requests, this`jobs
      ensures Value() == Collect(old(Value()))
    {
      var i := 0;
      while i < |requests|
        invariant i <= |requests| && jobs == JobsOf(requests[..i], tokens)
        invariant requests == old(requests)
      {
        assert requests[..i + 1][..i] == requests[..i];
        var r := requests[i];
        if r.needsMint && r.symbol in tokens { jobs := jobs + [Job(i, r)]; }
        i := i + 1;
      }
      assert requests[..i] == requests;
      i := 0;
      while i < |requests|
        invariant i <= |requests| == |old(requests)|
        invariant jobs == JobsOf(old(requests), tokens)
        invariant forall k :: 0 <= k < |requests| ==>
                    requests[k] == if k < i then FailUnknown(old(requests)[k], tokens) else old(requests)[k]
      {
        var r := requests[i];
        if r.needsMint && r.symbol !in tokens {
          requests := requests[i := r.(needsMint := false, status := Broken)];
        }
        i := i + 1;
      }
    }

    /** One transfer of the executor's second half: only a receipt touches the request, and then
        by the index saved before the lock was let go. */
    method ExecuteNext(e: Execution)
      requires jobs != []
      modifies this`requests, this`positions, this`jobs, this`landed
      ensures Value() == Execute(old(Value()), e)
    {
      var job := jobs[0];
      jobs := jobs[1..];
      match e {
        case NotSent | ReceiptLost =>
        case Mined(hash, success) =>
          landed := landed + [job.index];
          if job.index < |requests| {
            var r := requests[job.index].(txHash := hash);
            if success {
              r := r.(status := Done);
              AdjustPosition(r.symbol, 0.0 - job.request.quantity);
            } else {
              r := r.(status := Broken);
            }
            requests := requests[job.index := r.(needsMint := false)];
          }
      }
    }
  }

  /** A key found in a prefix is found at the same place in the whole. */
  lemma {:induction false} FirstKeyDecides(requests: seq<Req>, n: nat, key: Option<string>)
    requires n <= |requests| && FindKey(requests[..n], key).Some?
    ensures FindKey(requests, key) == FindKey(requests[..n], key)
    decreases |requests|
  {
    if n < |requests| {
      var front := requests[..|requests| - 1];
      assert front[..n] == requests[..n];
      FirstKeyDecides(front, n, key);
    } else {
      assert requests[..n] == requests;
    }
  }
}
