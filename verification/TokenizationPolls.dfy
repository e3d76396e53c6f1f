/** When a tokenization request leaves the counting phase: exactly on the read its threshold
    names, whatever else happens meanwhile. */
module TokenizationPolls {
  import opened Tokenization
  import opened TokenizationRuns

  /** Waiting, and not yet handed to the mint executor. */
  predicate Counting(r: Req) { r.status.Waiting? && !r.needsMint }

  /** The unfiltered reads among `actions`. */
  function Reads(actions: seq<Action>): nat {
    if actions == [] then 0
    else Reads(actions[..|actions| - 1]) + if actions[|actions| - 1] == Read(false) then 1 else 0
  }

  /** What one unfiltered read does to a request: `r` before, `q` after. On reaching its
      threshold a mint is due for execution and still waits, and a redemption settles the way
      the outcome in force says. */
  predicate CountedOnce(r: Req, q: Req, rejecting: bool) {
    && q.pollsUntilComplete == r.pollsUntilComplete
    && (Counting(r) ==> q.pollCount == r.pollCount + 1 && (Counting(q) <==> q.pollCount < r.pollsUntilComplete))
    && (Counting(r) && !Counting(q) ==>
          if r.kind.MintKind? then q.status.Waiting? && q.needsMint
          else !q.needsMint && q.status == if rejecting then Refused else Done)
    && (!Counting(r) ==> q == r)
  }

  /** What any other step does to it. */
  predicate NotCounted(r: Req, q: Req) {
    if Counting(r) then q == r else !Counting(q)
  }

  lemma PollAtIsLocal(w: World, i: nat, k: nat)
    requires i < |w.requests| && k < |w.requests|
    ensures |PollAt(w, i).requests| == |w.requests| && PollAt(w, i).rejectRedemptions == w.rejectRedemptions
    ensures if k == i then CountedOnce(w.requests[k], PollAt(w, i).requests[k], w.rejectRedemptions)
            else PollAt(w, i).requests[k] == w.requests[k]
  {
  }

  lemma {:induction false} PollFirstCounts(w: World, n: nat, k: nat)
    requires n <= |w.requests| && k < |w.requests|
    ensures PollFirst(w, n).rejectRedemptions == w.rejectRedemptions
    ensures if k < n then CountedOnce(w.requests[k], PollFirst(w, n).requests[k], w.rejectRedemptions)
            else PollFirst(w, n).requests[k] == w.requests[k]
  {
    if n > 0 {
      PollFirstCounts(w, n - 1, k);
      PollAtIsLocal(PollFirst(w, n - 1), n - 1, k);
    }
  }

  lemma ExecuteLeavesCounting(w: World, e: Execution, k: nat)
    requires Inv(w) && k < |w.requests|
    ensures |Execute(w, e).requests| == |w.requests| && NotCounted(w.requests[k], Execute(w, e).requests[k])
  {
    if w.jobs != [] {
      assert JobOk(w, w.jobs[0]);
    }
  }

  lemma StepCounts(w: World, a: Action, k: nat)
    requires Inv(w) && k < |w.requests| && !(a.SetRequestPolls? && a.index == k)
    ensures k < |Step(w, a).requests|
    ensures var r, q := w.requests[k], Step(w, a).requests[k];
            if a == Read(false) then CountedOnce(r, q, w.rejectRedemptions) else NotCounted(r, q)
  {
    match a {
      case Read(statusFiltered) => PollFirstCounts(w, |w.requests|, k);
      case ExecuteNext(result) => ExecuteLeavesCounting(w, result, k);
      case _ =>
    }
  }

  /** Whether redemptions are being rejected: as last set, or as at the start. */
  function Rejecting(start: bool, actions: seq<Action>): bool {
    if actions == [] then start
    else
      var last := actions[|actions| - 1];
      if last.SetOutcome? then last.reject else Rejecting(start, actions[..|actions| - 1])
  }

  lemma PollFirstKeepsOutcome(w: World, n: nat)
    requires n <= |w.requests|
    ensures PollFirst(w, n).rejectRedemptions == w.rejectRedemptions
  {
  }

  lemma {:induction false} OutcomeInForce(w: World, actions: seq<Action>)
    ensures Run(w, actions).rejectRedemptions == Rejecting(w.rejectRedemptions, actions)
  {
    if actions != [] {
      var before := Run(w, actions[..|actions| - 1]);
      OutcomeInForce(w, actions[..|actions| - 1]);
      if actions[|actions| - 1].Read? { PollFirstKeepsOutcome(before, |before.requests|); }
    }
  }

  /** The j-th action is the read that brings the count of `r` to its threshold. */
  ghost predicate ThresholdRead(r: Req, actions: seq<Action>, j: nat)
    requires j < |actions|
  {
    var before := Reads(actions[..j]);
    && actions[j] == Read(false)
    && r.pollCount + before + 1 >= r.pollsUntilComplete
    && (before == 0 || r.pollCount + before < r.pollsUntilComplete)
  }

  /** A redemption that left the counting phase in a run settled at its threshold read. */
  ghost predicate SettledAtThreshold(start: bool, r: Req, actions: seq<Action>, q: Req) {
    exists j :: 0 <= j < |actions| && ThresholdRead(r, actions, j) &&
                q.status == if Rejecting(start, actions[..j]) then Refused else Done
  }

  lemma SettledStays(start: bool, r: Req, actions: seq<Action>, q: Req, q': Req)
    requires actions != [] && q'.status == q.status
    requires SettledAtThreshold(start, r, actions[..|actions| - 1], q)
    ensures SettledAtThreshold(start, r, actions, q')
  {
    var front := actions[..|actions| - 1];
    var j :| 0 <= j < |front| && ThresholdRead(r, front, j) &&
             q.status == if Rejecting(start, front[..j]) then Refused else Done;
    assert front[..j] == actions[..j];
    assert ThresholdRead(r, actions, j);
  }

  lemma SettlesNow(start: bool, r: Req, actions: seq<Action>, q: Req)
    requires actions != []
    requires var n := |actions| - 1;
             ThresholdRead(r, actions, n) && q.status == if Rejecting(start, actions[..n]) then Refused else Done
    ensures SettledAtThreshold(start, r, actions, q)
  {
  }

  /** A request that is counting leaves that phase on exactly the read that brings its count to
      its threshold (or the first read, if the threshold is already met): posts, filtered
      reads, redemptions, mode changes and executor passes in between neither delay nor hasten
      it. A redemption then completes, or is rejected when that is the outcome in force at that
      very read; a mint is due for execution. */
  lemma {:induction false} SettlesOnItsRead(w: World, actions: seq<Action>, k: nat)
    requires Inv(w) && k < |w.requests| && Counting(w.requests[k])
    requires forall a <- actions :: !(a.SetRequestPolls? && a.index == k)
    ensures k < |Run(w, actions).requests|
    ensures var r, q, n := w.requests[k], Run(w, actions).requests[k], Reads(actions);
            && (Counting(q) <==> n == 0 || r.pollCount + n < r.pollsUntilComplete)
            && (Counting(q) ==> q.pollCount == r.pollCount + n && q.pollsUntilComplete == r.pollsUntilComplete)
            && (r.kind.RedeemKind? && Counting(q) ==> q.status.Waiting?)
            && (r.kind.RedeemKind? && !Counting(q) ==> SettledAtThreshold(w.rejectRedemptions, r, actions, q))
  {
    if actions != [] {
      var front := actions[..|actions| - 1];
      SettlesOnItsRead(w, front, k);
      SettlingStep(w, actions, k);
    }
  }

  lemma SettlingStep(w: World, actions: seq<Action>, k: nat)
    requires Inv(w) && k < |w.requests| && Counting(w.requests[k]) && actions != []
    requires var last := actions[|actions| - 1]; !(last.SetRequestPolls? && last.index == k)
    requires k < |Run(w, actions[..|actions| - 1]).requests|
    requires var r, front := w.requests[k], actions[..|actions| - 1];
             var q, n := Run(w, front).requests[k], Reads(front);
             && (Counting(q) <==> n == 0 || r.pollCount + n < r.pollsUntilComplete)
             && (Counting(q) ==> q.pollCount == r.pollCount + n && q.pollsUntilComplete == r.pollsUntilComplete)
             && (r.kind.RedeemKind? && !Counting(q) ==> SettledAtThreshold(w.rejectRedemptions, r, front, q))
    ensures k < |Run(w, actions).requests|
    ensures var r, q, n := w.requests[k], Run(w, actions).requests[k], Reads(actions);
            && (Counting(q) <==> n == 0 || r.pollCount + n < r.pollsUntilComplete)
            && (Counting(q) ==> q.pollCount == r.pollCount + n && q.pollsUntilComplete == r.pollsUntilComplete)
            && (r.kind.RedeemKind? && !Counting(q) ==> SettledAtThreshold(w.rejectRedemptions, r, actions, q))
  {
    var front, last := actions[..|actions| - 1], actions[|actions| - 1];
    var before := Run(w, front);
    RunIsGood(w, front);
    StepCounts(before, last, k);
    OutcomeInForce(w, front);
    var r, p, q := w.requests[k], before.requests[k], Run(w, actions).requests[k];
    assert SameRequest(r, p);
    if r.kind.RedeemKind? && !Counting(q) {
      if Counting(p) {
        SettlesNow(w.rejectRedemptions, r, actions, q);
      } else {
        StepIsGood(before, last);
        assert p in before.requests;
        SettledStays(w.rejectRedemptions, r, actions, p, q);
      }
    }
  }

  /** A mock that starts out completing redemptions and is never told to reject them rejects
      none. */
  lemma {:induction false} NeverRejectsUnlessTold(w: World, actions: seq<Action>)
    requires Inv(w) && !w.rejectRedemptions && (forall r <- w.requests :: !r.status.Refused?)
    requires SetOutcome(true) !in actions
    ensures forall r <- Run(w, actions).requests :: !r.status.Refused?
    ensures !Run(w, actions).rejectRedemptions
  {
    if actions != [] {
      var front, last := actions[..|actions| - 1], actions[|actions| - 1];
      assert actions == front + [last] && last in actions;
      NeverRejectsUnlessTold(w, front);
      RunIsGood(w, front);
      RejectsNone(Run(w, front), last);
    }
  }

  lemma RejectsNone(w: World, a: Action)
    requires Inv(w) && !w.rejectRedemptions && (forall r <- w.requests :: !r.status.Refused?) && a != SetOutcome(true)
    ensures !Step(w, a).rejectRedemptions && forall r <- Step(w, a).requests :: !r.status.Refused?
  {
    match a {
      case Read(statusFiltered) =>
        PollFirstKeepsOutcome(w, |w.requests|);
        var n := if statusFiltered then 0 else |w.requests|;
        forall k | 0 <= k < |w.requests| ensures !PollFirst(w, n).requests[k].status.Refused? {
          assert w.requests[k] in w.requests;
          PollFirstCounts(w, n, k);
        }
      case ExecuteNext(e) =>
      case _ =>
    }
  }
}
