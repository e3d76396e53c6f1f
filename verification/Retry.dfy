/** The Retry-After hold shared by every clone of the issuer client, and the retry loop
    each call runs under it.

    Time passes and other clones record hints while a call sleeps or waits for an answer:
    a `Beat` is one such hint after some time, and a suspension plays any list of them. */
module Retry {
  import opened Basics
  import opened Errors
  import opened Traffic

  const RETRY_AFTER_BUDGET: Duration := 30 * SECOND

  /** A hint `asked` recorded by some clone at `at`. */
  datatype Hint = Hint(at: Time, asked: Duration)

  datatype Hold = Hold(started: Time, delay: Duration)

  ghost function Ends(h: Hint): Time { h.at + Min(h.asked, MAX_RETRY_AFTER_HOLD) }

  /** The latest instant any recorded hint, capped, still asks for. */
  ghost function LatestEnd(hints: seq<Hint>): Time {
    if hints == [] then 0 else Max(LatestEnd(hints[..|hints| - 1]), Ends(hints[|hints| - 1]))
  }

  function Remaining(hold: Option<Hold>, now: Time): Duration {
    if hold.None? then 0 else SatSub(hold.value.delay, SatSub(now, hold.value.started))
  }

  ghost function HoldEnd(hold: Option<Hold>): Time {
    if hold.None? then 0 else hold.value.started + hold.value.delay
  }

  /** The stored pair and the history of hints end at the same instant, or both have. */
  ghost predicate Refines(hold: Option<Hold>, hints: seq<Hint>, now: Time) {
    && (hold.Some? ==> hold.value.started <= now)
    && (forall h <- hints :: h.at <= now)
    && Max(HoldEnd(hold), now) == Max(LatestEnd(hints), now)
  }

  /** At every instant from now on the pair's remaining wait is the excess of the latest
      hint end over that instant. */
  lemma RemainingIsLatestEnd(hold: Option<Hold>, hints: seq<Hint>, now: Time, t: Time)
    requires Refines(hold, hints, now) && now <= t
    ensures Remaining(hold, t) == SatSub(LatestEnd(hints), t)
  {
  }

  lemma {:induction false} NoneEndsLater(hints: seq<Hint>, k: nat)
    requires k < |hints|
    ensures Ends(hints[k]) <= LatestEnd(hints)
  {
    if k < |hints| - 1 {
      NoneEndsLater(hints[..|hints| - 1], k);
    }
  }

  lemma {:induction false} OneEndsLatest(hints: seq<Hint>) returns (k: nat)
    requires hints != []
    ensures k < |hints| && Ends(hints[k]) == LatestEnd(hints)
  {
    k := |hints| - 1;
    if |hints| > 1 && LatestEnd(hints) != Ends(hints[k]) {
      k := OneEndsLatest(hints[..|hints| - 1]);
    }
  }

  lemma LatestEndIsTheMaximum(hints: seq<Hint>)
    ensures forall h <- hints :: Ends(h) <= LatestEnd(hints)
    ensures hints != [] ==> exists h <- hints :: Ends(h) == LatestEnd(hints)
  {
    forall h | h in hints ensures Ends(h) <= LatestEnd(hints) {
      var k: nat :| k < |hints| && hints[k] == h;
      NoneEndsLater(hints, k);
    }
    if hints != [] {
      var k := OneEndsLatest(hints);
      assert hints[k] in hints;
    }
  }

  lemma HoldsAreBounded(hold: Option<Hold>, hints: seq<Hint>, now: Time)
    requires Refines(hold, hints, now)
    ensures Remaining(hold, now) <= MAX_RETRY_AFTER_HOLD
  {
    LatestEndIsTheMaximum(hints);
    RemainingIsLatestEnd(hold, hints, now, now);
  }

  /** Storing a longer delay, or keeping the pair when it already covers the new hint,
      refines the extended history. */
  lemma HintRefines(hold: Option<Hold>, hints: seq<Hint>, now: Time, later: Time, asked: Duration)
    requires Refines(hold, hints, now) && now <= later
    ensures var delay := Min(asked, MAX_RETRY_AFTER_HOLD);
            if hold.None? || Remaining(hold, now) < delay
            then Refines(Some(Hold(later, delay)), hints + [Hint(later, asked)], later)
            else Refines(hold, hints + [Hint(now, asked)], later)
  {
    assert (hints + [Hint(later, asked)])[..|hints|] == hints;
    assert (hints + [Hint(now, asked)])[..|hints|] == hints;
  }

  datatype Beat = Beat(after: Duration, asked: Duration, between: Duration)

  /** A sleep: its jitter and what the other clones did meanwhile. */
  datatype Nap = Nap(jitter: Duration, meanwhile: seq<Beat>)

  /** A backoff delay and what the other clones did during it. */
  datatype Pause = Pause(delay: Duration, meanwhile: seq<Beat>)

  datatype Outcome = Done | Failed(error: AlpacaError)

  /** One attempt: the sleeps on a hold before it, what other clones did while it ran, the
      answers it got, its outcome. */
  datatype Attempt = Attempt(naps: seq<Nap>, meanwhile: seq<Beat>, answers: seq<Answer>, outcome: Outcome)

  datatype Turn = Refused(wait: Duration) | Ended(outcome: Outcome, ahead: Duration)

  datatype CallResult =
    | Returned
    | CallFailed(written: bool, alpacaStatus: Option<nat>, error: AlpacaError)

  /** What the call reports when its loop ends with `turn`. */
  function Finished(turn: Turn, written: bool, lastAnswer: Option<nat>): CallResult {
    if turn.Refused? then CallFailed(written, lastAnswer, RateLimited(Some(turn.wait)))
    else if turn.outcome.Done? then Returned
    else CallFailed(written, lastAnswer, turn.outcome.error)
  }

  /** All answers the first `n` attempts got, in order. */
  ghost function AnswersOf(operation: seq<Attempt>, n: nat): seq<Answer>
    requires n <= |operation|
  {
    if n == 0 then [] else AnswersOf(operation, n - 1) + operation[n - 1].answers
  }

  /** Attempt `k` failed with an error that may have reached Alpaca. */
  ghost predicate Reached(operation: seq<Attempt>, k: nat)
    requires k < |operation|
  {
    operation[k].outcome.Failed? && MayHaveReachedAlpaca(operation[k].outcome.error)
  }

  ghost predicate FailedRetryably(operation: seq<Attempt>, k: nat)
    requires k < |operation|
  {
    operation[k].outcome.Failed? && IsRetryable(operation[k].outcome.error)
  }

  ghost predicate AllFailedRetryably(operation: seq<Attempt>, n: nat)
    requires n <= |operation|
  {
    forall k: nat :: k < n ==> FailedRetryably(operation, k)
  }

  ghost predicate SomeReached(operation: seq<Attempt>, n: nat)
    requires n <= |operation|
  {
    exists k: nat :: k < n && Reached(operation, k)
  }

  lemma OneMoreAttempt(operation: seq<Attempt>, n: nat)
    requires n < |operation|
    ensures SomeReached(operation, n + 1) <==> SomeReached(operation, n) || Reached(operation, n)
    ensures AllFailedRetryably(operation, n) && FailedRetryably(operation, n) ==> AllFailedRetryably(operation, n + 1)
    ensures AnswersOf(operation, n + 1) == AnswersOf(operation, n) + operation[n].answers
    ensures LastApiStatus(AnswersOf(operation, n + 1)) ==
              var last := LastApiStatus(operation[n].answers);
              if last.Some? then last else LastApiStatus(AnswersOf(operation, n))
  {
    LastApiStatusOfConcat(AnswersOf(operation, n), operation[n].answers);
    if SomeReached(operation, n) {
      var k: nat :| k < n && Reached(operation, k);
      assert Reached(operation, k) && k < n + 1;
    }
    if Reached(operation, n) {
      assert n < n + 1;
    }
  }

  ghost predicate Among(some: seq<Hint>, all: seq<Hint>) {
    forall h {:trigger h in some} :: h in some ==> h in all
  }

  lemma AmongMore(some: seq<Hint>, all: seq<Hint>, h: Hint)
    requires Among(some, all)
    ensures Among(some + [h], all + [h])
  {
  }

  ghost function Asked(hints: seq<Hint>): seq<Duration> {
    if hints == [] then [] else Asked(hints[..|hints| - 1]) + [hints[|hints| - 1].asked]
  }

  /** The hints the first `n` attempts came back with, in order. */
  ghost function OwnHints(operation: seq<Attempt>, n: nat): seq<Duration>
    requires n <= |operation|
  {
    if n == 0 then []
    else
      var front, hint := OwnHints(operation, n - 1), HintOf(operation[n - 1].outcome);
      if hint.Some? then front + [hint.value] else front
  }

  function HintOf(outcome: Outcome): Option<Duration> {
    if outcome.Failed? then BackpressureHint(outcome.error) else None
  }

  /** What attempts noted since `before` is what they came back with. */
  ghost predicate Noted(before: seq<Hint>, noted: seq<Hint>, operation: seq<Attempt>, n: nat) {
    before <= noted && n <= |operation| && Asked(noted[|before|..]) == OwnHints(operation, n)
  }

  lemma NoteOneMore(before: seq<Hint>, noted: seq<Hint>, operation: seq<Attempt>, n: nat, h: Hint)
    requires Noted(before, noted, operation, n) && n < |operation|
    ensures HintOf(operation[n].outcome) == Some(h.asked) ==> Noted(before, noted + [h], operation, n + 1)
    ensures HintOf(operation[n].outcome).None? ==> Noted(before, noted, operation, n + 1)
  {
    var since := noted[|before|..];
    assert (noted + [h])[|before|..] == since + [h];
    assert (since + [h])[..|since|] == since;
  }

  /** An attempt that started at `at`, after `known` hints had been recorded. */
  datatype Start = Start(at: Time, known: nat)

  /** No attempt started before all hints recorded until then, by any clone, had run out. */
  ghost predicate NoneInsideAHold(begun: seq<Start>, hints: seq<Hint>, now: Time) {
    forall st {:trigger StartedClear(st, hints, now)} :: st in begun ==> StartedClear(st, hints, now)
  }

  ghost predicate StartedClear(st: Start, hints: seq<Hint>, now: Time) {
    && st.at <= now && st.known <= |hints|
    && (forall j :: 0 <= j < st.known ==> Ends(hints[j]) <= st.at)
    && (forall j :: st.known <= j < |hints| ==> st.at <= hints[j].at)
  }

  lemma TimePasses(begun: seq<Start>, hints: seq<Hint>, now: Time, later: Time)
    requires NoneInsideAHold(begun, hints, now) && now <= later
    ensures NoneInsideAHold(begun, hints, later)
  {
    forall st | st in begun ensures StartedClear(st, hints, later) { assert StartedClear(st, hints, now); }
  }

  /** Between two attempts at least the backoff delay drawn after the first passes. */
  ghost predicate BacksOff(begun: seq<Start>, first: nat, delays: seq<Pause>) {
    && first <= |begun| <= first + |delays| + 1
    && forall k {:trigger Apart(begun, first, delays, k)} :: first <= k < |begun| - 1 ==> Apart(begun, first, delays, k)
  }

  ghost predicate Apart(begun: seq<Start>, first: nat, delays: seq<Pause>, k: int)
    requires first <= k < |begun| - 1 && k - first < |delays|
  {
    begun[k].at + delays[k - first].delay <= begun[k + 1].at
  }

  /** The delay after the last attempt is over by `now`. */
  ghost predicate BackedOff(begun: seq<Start>, first: nat, delays: seq<Pause>, now: Time)
    requires first <= |begun| <= first + |delays|
  {
    |begun| > first ==> begun[|begun| - 1].at + delays[|begun| - 1 - first].delay <= now
  }

  lemma OneMoreStart(begun: seq<Start>, first: nat, delays: seq<Pause>, now: Time, start: Start)
    requires BacksOff(begun, first, delays) && |begun| <= first + |delays|
    requires BackedOff(begun, first, delays, now) && now <= start.at
    ensures BacksOff(begun + [start], first, delays)
  {
    var more := begun + [start];
    forall k | first <= k < |more| - 1 ensures Apart(more, first, delays, k) {
      assert k < |begun| - 1 ==> Apart(begun, first, delays, k);
    }
  }

  lemma LaterHintKeepsStarts(begun: seq<Start>, hints: seq<Hint>, now: Time, h: Hint, later: Time)
    requires NoneInsideAHold(begun, hints, now) && now <= h.at && now <= later
    ensures NoneInsideAHold(begun, hints + [h], later)
  {
    forall st | st in begun ensures StartedClear(st, hints + [h], later) { assert StartedClear(st, hints, now); }
  }

  /** What the cells of the enclosing collect scope held when a call began. */
  datatype Scope = Scope(ids: seq<string>, status: Option<nat>)

  /** The task's cells hold exactly what the first `n` attempts were answered. */
  ghost predicate Heard(task: TaskLocals, outer: Scope, operation: seq<Attempt>, n: nat)
    requires n <= |operation|
    reads task
  {
    && task.lastAnswer == LastApiStatus(AnswersOf(operation, n))
    && task.requestIds == Recorded(outer.ids, task.collecting, AnswersOf(operation, n))
    && task.lastStatus == StatusAfter(outer.status, task.collecting, AnswersOf(operation, n))
  }

  /** What is fixed during one call: its scope, script, and the history it began with. */
  datatype Call = Call(outer: Scope, delays: seq<Pause>, operation: seq<Attempt>, first: nat, slept: Duration,
                       since: Time, knew: nat, noted: seq<Hint>)

  /** The starts from `first` on were made since `since`, with at least `knew` hints known. */
  ghost predicate StartedWithin(begun: seq<Start>, first: nat, since: Time, knew: nat) {
    forall k :: first <= k < |begun| ==> since <= begun[k].at && knew <= begun[k].known
  }

  /** The starts of a call so far. */
  ghost predicate Paced(begun: seq<Start>, call: Call) {
    && BacksOff(begun, call.first, call.delays)
    && StartedWithin(begun, call.first, call.since, call.knew)
  }

  lemma NextStart(begun: seq<Start>, call: Call, now: Time, start: Start)
    requires Paced(begun, call) && |begun| <= call.first + |call.delays|
    requires BackedOff(begun, call.first, call.delays, now) && now <= start.at
    requires call.since <= start.at && call.knew <= start.known
    ensures Paced(begun + [start], call)
  {
    OneMoreStart(begun, call.first, call.delays, now, start);
  }

  class AlpacaClient {
    var notBefore: Option<Hold>
    var now: Time
    ghost var hints: seq<Hint>
    /** The attempts started through this client. */
    ghost var begun: seq<Start>
    /** All time slept to wait out a hold. */
    ghost var slept: Duration
    /** The hints that attempts made through this client recorded, in order. */
    ghost var noted: seq<Hint>

    ghost predicate Valid()
      reads this
    {
      Refines(notBefore, hints, now) && NoneInsideAHold(begun, hints, now) && Among(noted, hints)
    }

    constructor (now: Time)
      ensures Valid() && hints == [] && begun == [] && slept == 0 && noted == [] && this.now == now
    {
      notBefore, this.now := None, now;
      hints, begun, slept, noted := [], [], 0, [];
    }

    /** The wait a caller sees is exactly what the latest of all hints still asks for. */
    method BackpressureWait() returns (wait: Option<Duration>)
      requires Valid()
      ensures wait.Some? <==> now < LatestEnd(hints)
      ensures wait.Some? ==> now + wait.value == LatestEnd(hints) && wait.value <= MAX_RETRY_AFTER_HOLD
    {
      HoldsAreBounded(notBefore, hints, now);
      RemainingIsLatestEnd(notBefore, hints, now, now);
      var left := Remaining(notBefore, now);
      wait := if left == 0 then None else Some(left);
    }

    /** `between` passes between the two clock readings of the comparison and the store. */
    method HoldFor(asked: Duration, between: Duration) returns (ghost at: Time)
      requires Valid()
      modifies this`notBefore, this`now, this`hints
      ensures Valid()
      ensures now == old(now) + between
      ensures old(now) <= at <= now && hints == old(hints) + [Hint(at, asked)]
    {
      var delay := Min(asked, MAX_RETRY_AFTER_HOLD);
      var longer := notBefore.None? || Remaining(notBefore, now) < delay;
      var later := now + between;
      at := if longer then later else now;
      HintRefines(notBefore, hints, now, later, asked);
      LaterHintKeepsStarts(begun, hints, now, Hint(at, asked), later);
      if longer {
        notBefore := Some(Hold(later, delay));
      }
      hints, now := hints + [Hint(at, asked)], later;
    }

    /** Suspends the calling task for at least `atLeast` while others run. */
    method Suspend(atLeast: Duration, meanwhile: seq<Beat>)
      requires Valid()
      modifies this`notBefore, this`now, this`hints
      ensures Valid() && old(now) + atLeast <= now && old(hints) <= hints
    {
      var wake := now + atLeast;
      for k := 0 to |meanwhile|
        invariant Valid() && old(hints) <= hints && old(now) <= now
      {
        TimePasses(begun, hints, now, now + meanwhile[k].after);
        now := now + meanwhile[k].after;
        var _ := HoldFor(meanwhile[k].asked, meanwhile[k].between);
      }
      TimePasses(begun, hints, now, Max(now, wake));
      now := Max(now, wake);
    }

    /** A sleep of `length` on a hold. */
    method Sleep(length: Duration, meanwhile: seq<Beat>)
      requires Valid()
      modifies this`notBefore, this`now, this`hints, this`slept
      ensures Valid() && old(now) + length <= now && old(hints) <= hints
      ensures slept == old(slept) + length
    {
      Suspend(length, meanwhile);
      slept := slept + length;
    }

    /** An attempt starts: only once every hint known has run out. */
    ghost method Begin()
      requires Valid() && LatestEnd(hints) <= now
      modifies this`begun
      ensures Valid() && begun == old(begun) + [Start(now, |hints|)]
    {
      LatestEndIsTheMaximum(hints);
      assert forall j :: 0 <= j < |hints| ==> hints[j] in hints;
      assert StartedClear(Start(now, |hints|), hints, now);
      begun := begun + [Start(now, |hints|)];
    }

    /** The inner wait loop: sleeps until no hold is ahead, or refuses when the hold is
        longer than what is left of the budget. Other clones may extend the hold at every
        sleep; each sleep still spends budget, so the loop ends. `naps` scripts the sleeps;
        past its end they have no jitter and nobody else runs. */
    method WaitOutHold(budget: Duration, naps: seq<Nap>) returns (left: Duration, refused: Option<Duration>)
      requires Valid()
      modifies this`notBefore, this`now, this`hints, this`slept
      ensures Valid() && left <= budget && old(now) <= now && old(hints) <= hints
      ensures refused.None? ==> LatestEnd(hints) <= now
      ensures refused.Some? ==>
                && now + refused.value == LatestEnd(hints)
                && left < refused.value <= MAX_RETRY_AFTER_HOLD
      ensures slept == old(slept) + (budget - left)
    {
      left := budget;
      var next := 0;
      var wait := BackpressureWait();
      while wait.Some?
        invariant Valid() && left <= budget && old(now) <= now && old(hints) <= hints
        invariant wait.Some? <==> now < LatestEnd(hints)
        invariant wait.Some? ==> now + wait.value == LatestEnd(hints) && 0 < wait.value <= MAX_RETRY_AFTER_HOLD
        invariant slept == old(slept) + (budget - left) && 0 <= next
        decreases left, if wait.Some? then 1 else 0
      {
        if wait.value > left {
          return left, wait;
        }
        var nap := if next < |naps| then naps[next] else Nap(0, []);
        next := next + 1;
        var sleep := Min(wait.value + nap.jitter, left);
        left := left - sleep;
        Sleep(sleep, nap.meanwhile);
        wait := BackpressureWait();
      }
      refused := None;
    }

    /** A call between two of its suspensions: `n` attempts made, `left` of its budget left. */
    ghost predicate Underway(task: TaskLocals, call: Call, n: nat, left: Duration)
      reads this, task
    {
      && Valid() && task.tracking && |call.operation| == |call.delays| + 1
      && n <= |call.operation| && |begun| == call.first + n && Paced(begun, call)
      && call.since <= now && call.knew <= |hints|
      && left <= RETRY_AFTER_BUDGET && slept + left == call.slept + RETRY_AFTER_BUDGET
      && Heard(task, call.outer, call.operation, n) && Noted(call.noted, noted, call.operation, n)
    }

    /** A call that begins now. */
    ghost function CallNow(task: TaskLocals, delays: seq<Pause>, operation: seq<Attempt>): Call
      reads this, task
    {
      Call(Scope(task.requestIds, task.lastStatus), delays, operation, |begun|, slept, now, |hints|, noted)
    }

    /** The call goes on: all `n` attempts failed for now, and the last one's delay is over. */
    ghost predicate Open(task: TaskLocals, call: Call, n: nat, left: Duration, written: bool)
      reads this, task
    {
      && Underway(task, call, n, left) && n <= |call.delays|
      && BackedOff(begun, call.first, call.delays, now) && SoFar(call.operation, n, written)
    }

    /** The call is over after `n` attempts. */
    ghost predicate Over(task: TaskLocals, call: Call, n: nat, left: Duration, result: CallResult)
      reads this, task
    {
      && Underway(task, call, n, left)
      && (n > 0 ==> AllFailedRetryably(call.operation, n - 1))
      && Reported(result, call.operation, n, RETRY_AFTER_BUDGET - left)
      && GaveUpRightly(result, n, |call.delays|, RETRY_AFTER_BUDGET - left)
    }

    lemma CallOpens(task: TaskLocals, delays: seq<Pause>, operation: seq<Attempt>)
      requires |operation| == |delays| + 1
      requires Valid() && task.tracking && task.lastAnswer.None?
      ensures Open(task, CallNow(task, delays, operation), 0, RETRY_AFTER_BUDGET, false)
    {
    }

    /** The retry loop. `delays` is the backoff iterator, one delay a retry; `operation[k]` is
        what the k-th attempt would meet. `n` counts the attempts made, `left` is what is left
        of the budget. */
    method RetryAttempts(task: TaskLocals, delays: seq<Pause>, operation: seq<Attempt>)
      returns (result: CallResult, ghost n: nat, ghost left: Duration)
      requires |operation| == |delays| + 1
      requires Valid() && task.tracking && task.lastAnswer.None?
      modifies this, task`requestIds, task`lastStatus, task`lastAnswer
      ensures Over(task, old(CallNow(task, delays, operation)), n, left, result)
      ensures old(hints) <= hints && old(begun) <= begun
    {
      var budget := RETRY_AFTER_BUDGET;
      var written := false;
      var used := 0;
      ghost var call := CallNow(task, delays, operation);
      CallOpens(task, delays, operation);
      while true
        invariant used <= |delays| && Open(task, call, used, budget, written)
        invariant old(hints) <= hints && old(begun) <= begun
        decreases |delays| - used
      {
        var end;
        budget, written, end, n := Round(task, call, delays, operation, used, budget, written);
        if end.Some? {
          result, left := end.value, budget;
          return;
        }
        used := used + 1;
      }
    }

    /** One round of the loop: an attempt after waiting out the hold, then either the end of the
        call or the backoff delay. */
    method Round(task: TaskLocals, ghost call: Call, delays: seq<Pause>, operation: seq<Attempt>,
                 used: nat, budget: Duration, before: bool)
      returns (left: Duration, written: bool, end: Option<CallResult>, ghost n: nat)
      requires delays == call.delays && operation == call.operation
      requires Open(task, call, used, budget, before)
      modifies this, task`requestIds, task`lastStatus, task`lastAnswer
      ensures old(hints) <= hints && old(begun) <= begun
      ensures end.None? ==> used < |delays| && Open(task, call, used + 1, left, written)
      ensures end.Some? ==> Over(task, call, n, left, end.value)
    {
      var turn;
      left, turn := TakeTurn(task, call, operation, used, budget);
      n, written := used, before;
      if turn.Ended? {
        n := used + 1;
        written := written || (turn.outcome.Failed? && MayHaveReachedAlpaca(turn.outcome.error));
      }
      if turn.Refused? || turn.outcome.Done? || !IsRetryable(turn.outcome.error)
         || used == |delays| || turn.ahead > left {
        EndOfCall(turn, before, written, task.lastAnswer, operation, used, n, RETRY_AFTER_BUDGET - left);
        end := Some(Finished(turn, written, task.lastAnswer));
      } else {
        RetryIsDue(operation, used, before, written);
        BackOff(task, call, n, left, delays[used]);
        end := None;
      }
    }

    /** With retries left a call fails only for good, or inside a hold past the rest of its
        budget. */
    ghost predicate GaveUpRightly(result: CallResult, n: nat, retries: nat, spent: Duration)
      requires spent <= RETRY_AFTER_BUDGET
      reads this
    {
      result.CallFailed? && n <= retries ==>
        (n > 0 && !IsRetryable(result.error)) || now + (RETRY_AFTER_BUDGET - spent) < LatestEnd(hints)
    }

    /** The backoff delay after attempt `n`. */
    method BackOff(ghost task: TaskLocals, ghost call: Call, ghost n: nat, ghost left: Duration, pause: Pause)
      requires Underway(task, call, n, left) && 0 < n <= |call.delays| && pause == call.delays[n - 1]
      modifies this`notBefore, this`now, this`hints
      ensures Underway(task, call, n, left) && old(hints) <= hints
      ensures BackedOff(begun, call.first, call.delays, now)
    {
      assert StartedClear(begun[|begun| - 1], hints, now);
      Suspend(pause.delay, pause.meanwhile);
    }

    /** One turn of the loop: wait out the hold, then attempt. No suspension lies between
        seeing no hold and starting. The attempt's answers are recorded, and a failure
        extends the shared hold; `ahead` is the hold seen right after it. */
    method TakeTurn(task: TaskLocals, ghost call: Call, operation: seq<Attempt>, k: nat, budget: Duration)
      returns (left: Duration, turn: Turn)
      requires Underway(task, call, k, budget) && operation == call.operation && k <= |call.delays|
      requires BackedOff(begun, call.first, call.delays, now)
      modifies this, task`requestIds, task`lastStatus, task`lastAnswer
      ensures old(hints) <= hints && old(begun) <= begun
      ensures turn.Refused? ==>
                && Underway(task, call, k, left)
                && left < turn.wait <= MAX_RETRY_AFTER_HOLD && now + turn.wait == LatestEnd(hints)
      ensures turn.Ended? ==>
                && Underway(task, call, k + 1, left)
                && turn.outcome == operation[k].outcome
                && turn.ahead == SatSub(LatestEnd(hints), now)
      ensures turn.Ended? && turn.outcome.Failed? && BackpressureHint(turn.outcome.error).Some? ==>
                Min(BackpressureHint(turn.outcome.error).value, MAX_RETRY_AFTER_HOLD) <= turn.ahead
    {
      var refused;
      left, refused := WaitOutHold(budget, operation[k].naps);
      if refused.Some? {
        turn := Refused(refused.value);
      } else {
        turn := MakeAttempt(task, call, operation, k, left);
      }
    }

    /** One attempt, from a moment at which no hold is ahead. */
    method MakeAttempt(task: TaskLocals, ghost call: Call, operation: seq<Attempt>, k: nat, ghost left: Duration)
      returns (turn: Turn)
      requires Underway(task, call, k, left) && operation == call.operation && k <= |call.delays|
      requires BackedOff(begun, call.first, call.delays, now) && LatestEnd(hints) <= now
      modifies this`notBefore, this`now, this`hints, this`begun, this`noted
      modifies task`requestIds, task`lastStatus, task`lastAnswer
      ensures old(hints) <= hints && old(begun) <= begun
      ensures Underway(task, call, k + 1, left)
      ensures turn.Ended? && turn.outcome == operation[k].outcome && turn.ahead == SatSub(LatestEnd(hints), now)
      ensures turn.outcome.Failed? && BackpressureHint(turn.outcome.error).Some? ==>
                Min(BackpressureHint(turn.outcome.error).value, MAX_RETRY_AFTER_HOLD) <= turn.ahead
    {
      NextStart(begun, call, now, Start(now, |hints|));
      Begin();
      var attempt := operation[k];
      Suspend(0, attempt.meanwhile);
      RecordAnswers(task, call.outer, operation, k);
      NoteOneMore(call.noted, noted, operation, k, Hint(now, GetOr(HintOf(attempt.outcome), 0)));
      if attempt.outcome.Failed? {
        NoteBackpressure(attempt.outcome.error);
      }
      var wait := BackpressureWait();
      turn := Ended(attempt.outcome, GetOr(wait, 0));
    }

    static method RecordAnswers(task: TaskLocals, ghost outer: Scope, operation: seq<Attempt>, k: nat)
      requires k < |operation| && task.tracking && Heard(task, outer, operation, k)
      modifies task`requestIds, task`lastStatus, task`lastAnswer
      ensures Heard(task, outer, operation, k + 1)
    {
      OneMoreAttempt(operation, k);
      RecordedTwice(outer.ids, task.collecting, AnswersOf(operation, k), operation[k].answers);
      StatusAfterTwice(outer.status, task.collecting, AnswersOf(operation, k), operation[k].answers);
      task.RecordAll(operation[k].answers);
    }

    /** Extends the shared hold when the error carries a hint. */
    method NoteBackpressure(error: AlpacaError)
      requires Valid()
      modifies this`notBefore, this`now, this`hints, this`noted
      ensures Valid() && now == old(now) && old(hints) <= hints
      ensures BackpressureHint(error).None? ==> hints == old(hints) && noted == old(noted)
      ensures BackpressureHint(error).Some? ==>
                && noted == old(noted) + [Hint(now, BackpressureHint(error).value)]
                && now + Min(BackpressureHint(error).value, MAX_RETRY_AFTER_HOLD) <= LatestEnd(hints)
    {
      var hint := BackpressureHint(error);
      if hint.Some? {
        var at := HoldFor(hint.value, 0);
        NoneEndsLater(hints, |hints| - 1);
        AmongMore(noted, old(hints), hints[|hints| - 1]);
        noted := noted + [Hint(now, hint.value)];
      }
    }

    /** The call in its own last-answer scope: the caller's scope is as before, and the
        enclosing collect scope saw every answer. */
    method WithRetryReporting(task: TaskLocals, delays: seq<Pause>, operation: seq<Attempt>)
      returns (result: CallResult, ghost n: nat)
      requires |operation| == |delays| + 1 && Valid()
      modifies this, task
      ensures Valid() && task.tracking == old(task.tracking) && task.lastAnswer == old(task.lastAnswer)
      ensures task.collecting == old(task.collecting)
      // bounded effort, whatever the other clones do
      ensures n <= |delays| + 1 && old(slept) <= slept <= old(slept) + 30 * SECOND
      // every attempt starts after all hints recorded until then, by any clone, have run out
      ensures old(hints) <= hints && old(begun) <= begun && |begun| == |old(begun)| + n
      ensures forall st <- begun ::
                && st.known <= |hints|
                && (forall j :: 0 <= j < st.known ==> hints[j].at + Min(hints[j].asked, 5 * MINUTE) <= st.at)
                && (forall j :: st.known <= j < |hints| ==> st.at <= hints[j].at)
      ensures forall k :: |old(begun)| <= k < |begun| ==>
                old(now) <= begun[k].at && |old(hints)| <= begun[k].known
      // attempts are at least the backoff delay apart
      ensures BacksOff(begun, |old(begun)|, delays)
      // the hints its own attempts came back with extend the shared hold, and nothing else of it does
      ensures old(noted) <= noted && Asked(noted[|old(noted)|..]) == OwnHints(operation, n)
      ensures forall h <- noted :: h in hints
      // the call stops at the first attempt that succeeds or fails for good
      ensures forall k: nat :: k + 1 < n ==> FailedRetryably(operation, k)
      ensures result.Returned? <==> n > 0 && operation[n - 1].outcome.Done?
      // with retries left it fails only for good, or inside a hold past the rest of its budget
      ensures result.CallFailed? && n <= |delays| ==>
                || (n > 0 && !IsRetryable(result.error))
                || now + (30 * SECOND - (slept - old(slept))) < LatestEnd(hints)
      // what a failed call reports
      ensures result.CallFailed? ==>
                && (result.written <==>
                      exists k: nat :: k < n && operation[k].outcome.Failed? &&
                                       MayHaveReachedAlpaca(operation[k].outcome.error))
                && result.alpacaStatus == LastApiStatus(AnswersOf(operation, n))
                && (n == 0 ==> !result.written && result.alpacaStatus.None?)
                && (LocallyRefused(result.error, slept - old(slept)) ||
                    (n > 0 && operation[n - 1].outcome == Failed(result.error)))
      ensures (n > 0 ==> AllFailedRetryably(operation, n - 1)) && Reported(result, operation, n, slept - old(slept))
      // what the enclosing collect scope saw
      ensures task.requestIds == Recorded(old(task.requestIds), task.collecting, AnswersOf(operation, n))
      ensures task.lastStatus == StatusAfter(old(task.lastStatus), task.collecting, AnswersOf(operation, n))
    {
      var outer, outerAnswer := task.tracking, task.lastAnswer;
      task.tracking, task.lastAnswer := true, None;
      ghost var left;
      result, n, left := RetryAttempts(task, delays, operation);
      assert RETRY_AFTER_BUDGET - left == slept - old(slept);
      task.tracking, task.lastAnswer := outer, outerAnswer;
      assert forall st <- begun :: StartedClear(st, hints, now);
      assert forall k: nat :: k < n ==> (Reached(operation, k) <==>
        operation[k].outcome.Failed? && MayHaveReachedAlpaca(operation[k].outcome.error));
    }
  }

  /** What a finished call says about its `n` attempts. */
  ghost predicate Reported(result: CallResult, operation: seq<Attempt>, n: nat, spent: Duration)
    requires n <= |operation| && spent <= RETRY_AFTER_BUDGET
  {
    && (result.Returned? <==> n > 0 && operation[n - 1].outcome.Done?)
    && (result.CallFailed? ==>
          && (result.written <==> SomeReached(operation, n))
          && result.alpacaStatus == LastApiStatus(AnswersOf(operation, n))
          && ((LocallyRefused(result.error, spent) && AllFailedRetryably(operation, n)) ||
              (n > 0 && operation[n - 1].outcome == Failed(result.error))))
  }

  /** `n` attempts made, all to be retried; `written` says whether one may have reached Alpaca. */
  ghost predicate SoFar(operation: seq<Attempt>, n: nat, written: bool) {
    n <= |operation| && AllFailedRetryably(operation, n) && (written <==> SomeReached(operation, n))
  }

  lemma RetryIsDue(operation: seq<Attempt>, k: nat, before: bool, written: bool)
    requires k < |operation| && SoFar(operation, k, before) && FailedRetryably(operation, k)
    requires written <==> before || Reached(operation, k)
    ensures SoFar(operation, k + 1, written)
  {
    OneMoreAttempt(operation, k);
  }

  /** The loop ends after `n` attempts: with a refusal after the first `k`, or with the k-th. */
  lemma EndOfCall(turn: Turn, before: bool, written: bool, lastAnswer: Option<nat>,
                  operation: seq<Attempt>, k: nat, n: nat, spent: Duration)
    requires k < |operation| && SoFar(operation, k, before) && spent <= RETRY_AFTER_BUDGET
    requires turn.Refused? ==>
               n == k && written == before && RETRY_AFTER_BUDGET - spent < turn.wait <= MAX_RETRY_AFTER_HOLD
    requires turn.Ended? ==>
               && n == k + 1 && operation[k].outcome == turn.outcome
               && (written <==> before || (turn.outcome.Failed? && MayHaveReachedAlpaca(turn.outcome.error)))
    requires lastAnswer == LastApiStatus(AnswersOf(operation, n))
    ensures Reported(Finished(turn, written, lastAnswer), operation, n, spent)
    ensures n > 0 ==> AllFailedRetryably(operation, n - 1)
  {
    OneMoreAttempt(operation, k);
    assert turn.Refused? && n > 0 ==> FailedRetryably(operation, n - 1);
  }

  /** A refusal without an attempt: inside a hold longer than the rest of the budget. */
  ghost predicate LocallyRefused(e: AlpacaError, spent: Duration)
    requires spent <= RETRY_AFTER_BUDGET
  {
    && e.RateLimited? && e.retryAfter.Some?
    && RETRY_AFTER_BUDGET - spent < e.retryAfter.value <= MAX_RETRY_AFTER_HOLD
  }

  /** Marks a failed call written when Alpaca's final answer is `status`. */
  function WrittenOn(r: CallResult, status: nat): CallResult
    requires r.CallFailed?
  {
    r.(written := r.written || r.error == Api(status))
  }

  /** An answer that ends the loop is the last attempt's, so looking at the final error
      alone finds it wherever it occurred. */
  lemma WrittenOnSeesEveryAttempt(r: CallResult, status: nat, operation: seq<Attempt>, n: nat, spent: Duration)
    requires n <= |operation| && spent <= RETRY_AFTER_BUDGET && Reported(r, operation, n, spent) && r.CallFailed?
    requires n > 0 ==> AllFailedRetryably(operation, n - 1)
    requires !RetryableStatus(status)
    ensures WrittenOn(r, status).written <==>
              SomeReached(operation, n) || exists k: nat :: k < n && operation[k].outcome == Failed(Api(status))
  {
    forall k: nat | k < n && operation[k].outcome == Failed(Api(status))
      ensures r.error == Api(status)
    {
      assert !FailedRetryably(operation, k);
      assert k == n - 1;
    }
    if r.error == Api(status) {
      assert operation[n - 1].outcome == Failed(Api(status));
    }
  }
}
