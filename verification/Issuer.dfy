/** The issuer's three calls through the retry loop, from what each attempt met on the wire to
    what the caller is told. */
module Issuer {
  import opened Basics
  import opened Errors
  import opened Traffic
  import opened Retry

  datatype Endpoint = MintCallback | RedeemCallback | RequestStatus

  /** How the body of a 200 reads back. */
  datatype Body = Good | Unreadable(isDecode: bool) | Unparsable | WrongId

  /** What one attempt met: it failed before sending, was sent and got no answer, or was answered. */
  datatype Exchange =
    | BadUrl
    | NoCredential(mint: KmsJwtError)
    | GateShut
    | Unanswered(source: ReqwestError)
    | Answered(status: nat, retryAfter: Option<Duration>, id: Option<string>, body: Body)

  /** An attempt with everything around it; `mints` are the ids of the mint answers it got. */
  datatype Try = Try(naps: seq<Nap>, meanwhile: seq<Beat>, mints: seq<Option<string>>, met: Exchange)

  // ----- what an attempt makes of it

  function OkOutcome(e: Endpoint, body: Body): Outcome {
    if e.MintCallback? then Done
    else
      match body
      case Good => Done
      case Unreadable(isDecode) => Failed(Reqwest(ReqwestError(false, false, isDecode)))
      case Unparsable => Failed(Parse)
      case WrongId => if e.RequestStatus? then Failed(ResponseIdMismatch) else Done
  }

  function OutcomeOf(e: Endpoint, met: Exchange): Outcome {
    match met
    case BadUrl => Failed(InvalidUrl)
    case NoCredential(mint) => Failed(Jwt(mint))
    case GateShut => Failed(NotSent)
    case Unanswered(source) => Failed(Reqwest(source))
    case Answered(status, retryAfter, _, body) =>
      if status == 200 then OkOutcome(e, body)
      else if status == 404 && e.RequestStatus? then Failed(RequestNotFound)
      else if status == 401 || status == 403 then Failed(Auth)
      else if status == 429 then Failed(RateLimited(retryAfter))
      else Failed(Api(status))
  }

  function MintAnswers(ids: seq<Option<string>>): seq<Answer> {
    if ids == [] then [] else MintAnswers(ids[..|ids| - 1]) + [MintAnswer(ids[|ids| - 1])]
  }

  function ApiAnswers(met: Exchange): seq<Answer> {
    if met.Answered? then [ApiAnswer(met.status, met.id)] else []
  }

  function AttemptOf(e: Endpoint, t: Try): Attempt {
    Attempt(t.naps, t.meanwhile, MintAnswers(t.mints) + ApiAnswers(t.met), OutcomeOf(e, t.met))
  }

  function Operation(e: Endpoint, tries: seq<Try>): (operation: seq<Attempt>)
    ensures |operation| == |tries| && forall k :: 0 <= k < |tries| ==> operation[k] == AttemptOf(e, tries[k])
  {
    seq(|tries|, k requires 0 <= k < |tries| => AttemptOf(e, tries[k]))
  }

  // ----- what the wire says, without naming errors

  /** The attempt succeeded. */
  ghost predicate Succeeded(e: Endpoint, met: Exchange) {
    met.Answered? && met.status == 200 &&
    (e.MintCallback? || met.body.Good? || (met.body.WrongId? && e.RedeemCallback?))
  }

  /** A failed attempt may have been applied: its answer was lost after it could have left, or
      was no definite rejection. A mint callback's 400 and a redeem's 422 are no rejections. */
  ghost predicate MayBeApplied(e: Endpoint, met: Exchange) {
    match met
    case Unanswered(source) => !source.isBuilder && !source.isConnect
    case Answered(status, _, _, _) =>
      || status < 400 || status >= 500 || status == 408
      || (e.MintCallback? && status == 400) || (e.RedeemCallback? && status == 422)
    case _ => false
  }

  /** A failed attempt is worth another: throttled, a server error, or lost on the way. */
  ghost predicate Transient(e: Endpoint, met: Exchange) {
    match met
    case NoCredential(mint) =>
      (match mint
       case Http => true
       case KmsStatus(st, _) => st < 300 || st == 408 || st == 429 || st >= 500
       case TokenStatus(st, _) => st < 300 || st == 408 || st == 429 || st >= 500
       case LocalFailure => false
       case MintNotSent => false)
    case Unanswered(source) => !source.isDecode
    case Answered(status, _, _, body) =>
      || status == 429 || 500 <= status <= 599
      || (status == 200 && !e.MintCallback? && body == Unreadable(false))
    case _ => false
  }

  /** The Retry-After an attempt came back with: on a 429 of the API, the signer or the token
      endpoint. */
  ghost function Throttle(met: Exchange): Option<Duration> {
    match met
    case Answered(status, retryAfter, _, _) => if status == 429 then retryAfter else None
    case NoCredential(KmsStatus(st, retryAfter)) => if st == 429 then retryAfter else None
    case NoCredential(TokenStatus(st, retryAfter)) => if st == 429 then retryAfter else None
    case _ => None
  }

  ghost function Throttles(tries: seq<Try>, n: nat): seq<Duration>
    requires n <= |tries|
  {
    if n == 0 then []
    else
      var front, hint := Throttles(tries, n - 1), Throttle(tries[n - 1].met);
      if hint.Some? then front + [hint.value] else front
  }

  /** The status of the last answer among the first `n` attempts. */
  ghost function LastStatus(tries: seq<Try>, n: nat): Option<nat>
    requires n <= |tries|
  {
    if n == 0 then None
    else if tries[n - 1].met.Answered? then Some(tries[n - 1].met.status)
    else LastStatus(tries, n - 1)
  }

  // ----- the two agree

  lemma OutcomesAgree(e: Endpoint, met: Exchange)
    ensures OutcomeOf(e, met).Done? <==> Succeeded(e, met)
    ensures OutcomeOf(e, met).Failed? ==> (IsRetryable(OutcomeOf(e, met).error) <==> Transient(e, met))
    ensures OutcomeOf(e, met).Failed? ==> BackpressureHint(OutcomeOf(e, met).error) == Throttle(met)
    ensures OutcomeOf(e, met).Done? ==> Throttle(met).None?
  {
  }

  /** An API status is retried exactly when it is 429 or 500 to 599, whichever endpoint gave it,
      and is taken for unwritten exactly when it is 400 to 499 but not 408. */
  lemma StatusesRetriedAndUnwritten(status: nat)
    ensures IsRetryable(Api(status)) <==> status == 429 || 500 <= status < 600
    ensures !MayHaveReachedAlpaca(Api(status)) <==> 400 <= status < 500 && status != 408
  {
  }

  /** The status an endpoint also gives once it may have applied the request. */
  function AppliedStatus(e: Endpoint): nat { if e.MintCallback? then 400 else 422 }

  lemma ReachingAgrees(e: Endpoint, met: Exchange)
    requires OutcomeOf(e, met).Failed? && !e.RequestStatus?
    ensures MayHaveReachedAlpaca(OutcomeOf(e, met).error) || OutcomeOf(e, met).error == Api(AppliedStatus(e)) <==>
            MayBeApplied(e, met)
  {
  }

  lemma {:induction false} LastMintsSayNothing(ids: seq<Option<string>>)
    ensures LastApiStatus(MintAnswers(ids)) == None
  {
    if ids != [] {
      var answers := MintAnswers(ids);
      LastMintsSayNothing(ids[..|ids| - 1]);
      assert answers[..|answers| - 1] == MintAnswers(ids[..|ids| - 1]);
    }
  }

  function MetStatus(met: Exchange): Option<nat> { if met.Answered? then Some(met.status) else None }

  lemma StatusOfTry(e: Endpoint, t: Try)
    ensures LastApiStatus(AttemptOf(e, t).answers) == MetStatus(t.met)
  {
    LastMintsSayNothing(t.mints);
    LastApiStatusOfConcat(MintAnswers(t.mints), ApiAnswers(t.met));
  }

  lemma {:induction false} StatusesAgree(tries: seq<Try>, operation: seq<Attempt>, n: nat)
    requires n <= |tries| == |operation|
    requires forall k :: 0 <= k < n ==> LastApiStatus(operation[k].answers) == MetStatus(tries[k].met)
    ensures LastApiStatus(AnswersOf(operation, n)) == LastStatus(tries, n)
  {
    if n > 0 {
      StatusesAgree(tries, operation, n - 1);
      LastApiStatusOfConcat(AnswersOf(operation, n - 1), operation[n - 1].answers);
    }
  }

  lemma {:induction false} HintsAgree(tries: seq<Try>, operation: seq<Attempt>, n: nat)
    requires n <= |tries| == |operation|
    requires forall k :: 0 <= k < n ==> HintOf(operation[k].outcome) == Throttle(tries[k].met)
    ensures OwnHints(operation, n) == Throttles(tries, n)
  {
    if n > 0 {
      HintsAgree(tries, operation, n - 1);
    }
  }

  /** `operation` is what the attempts make of `tries`. */
  ghost predicate Plays(e: Endpoint, tries: seq<Try>, operation: seq<Attempt>) {
    |operation| == |tries| && forall k :: 0 <= k < |tries| ==> operation[k].outcome == OutcomeOf(e, tries[k].met)
  }

  /** A failed call's `written`, from the wire. */
  lemma WrittenAgrees(e: Endpoint, tries: seq<Try>, operation: seq<Attempt>, n: nat, r: CallResult, spent: Duration)
    requires Plays(e, tries, operation) && n <= |tries| && spent <= RETRY_AFTER_BUDGET && !e.RequestStatus?
    requires r.CallFailed? && Reported(r, operation, n, spent) && (n > 0 ==> AllFailedRetryably(operation, n - 1))
    ensures WrittenOn(r, AppliedStatus(e)).written <==> exists k: nat :: k < n && MayBeApplied(e, tries[k].met)
  {
    var status := AppliedStatus(e);
    WrittenOnSeesEveryAttempt(r, status, operation, n, spent);
    forall k: nat | k < n
      ensures MayBeApplied(e, tries[k].met) <==> Reached(operation, k) || operation[k].outcome == Failed(Api(status))
    {
      assert k < n - 1 ==> FailedRetryably(operation, k);
      ReachingAgrees(e, tries[k].met);
    }
    if SomeReached(operation, n) {
      var k: nat :| k < n && Reached(operation, k);
      assert MayBeApplied(e, tries[k].met);
    }
  }

  /** What a call with `retries` retries tells after `n` attempts; `held` says that it stands
      inside a hold longer than the rest of its budget. */
  ghost predicate Tells(e: Endpoint, tries: seq<Try>, n: nat, retries: nat, held: bool, result: CallResult) {
    && n <= retries + 1 <= |tries|
    // it goes on exactly while attempts are worth another
    && (forall k: nat :: k + 1 < n ==> Transient(e, tries[k].met))
    && (result.Returned? <==> n > 0 && Succeeded(e, tries[n - 1].met))
    && (result.CallFailed? && n <= retries ==> (n > 0 && !Transient(e, tries[n - 1].met)) || held)
    // a failed POST may have been written exactly when some attempt may have been applied
    && (result.CallFailed? && !e.RequestStatus? ==>
          (result.written <==> exists k: nat :: k < n && MayBeApplied(e, tries[k].met)))
    && (result.CallFailed? && e.RequestStatus? ==> !result.written)
    && (result.CallFailed? ==> result.alpacaStatus == LastStatus(tries, n))
  }

  /** What the endpoint makes of the loop's report. */
  function Corrected(e: Endpoint, r: CallResult): CallResult {
    if r.Returned? then r
    else if e.RequestStatus? then r.(written := false)
    else WrittenOn(r, AppliedStatus(e))
  }

  lemma CallTells(e: Endpoint, tries: seq<Try>, operation: seq<Attempt>, n: nat, retries: nat, held: bool,
                  r: CallResult, spent: Duration)
    requires Plays(e, tries, operation) && |tries| == retries + 1 && n <= |tries| && spent <= RETRY_AFTER_BUDGET
    requires Reported(r, operation, n, spent) && (n > 0 ==> AllFailedRetryably(operation, n - 1))
    requires r.CallFailed? && n <= retries ==> (n > 0 && !IsRetryable(r.error)) || held
    requires LastApiStatus(AnswersOf(operation, n)) == LastStatus(tries, n)
    ensures Tells(e, tries, n, retries, held, Corrected(e, r))
  {
    forall k: nat | k < n
      ensures operation[k].outcome.Done? <==> Succeeded(e, tries[k].met)
      ensures operation[k].outcome.Failed? ==> (IsRetryable(operation[k].outcome.error) <==> Transient(e, tries[k].met))
    {
      OutcomesAgree(e, tries[k].met);
    }
    forall k: nat | k + 1 < n ensures Transient(e, tries[k].met) {
      assert FailedRetryably(operation, k);
    }
    if r.CallFailed? && !e.RequestStatus? {
      WrittenAgrees(e, tries, operation, n, r, spent);
    }
  }

  // ----- the calls

  /** One issuer call. What it tells is stated by what its attempts met on the wire alone. */
  method IssuerCall(client: AlpacaClient, task: TaskLocals, e: Endpoint, delays: seq<Pause>, tries: seq<Try>)
    returns (result: CallResult, ghost n: nat)
    requires |tries| == |delays| + 1 && client.Valid()
    modifies client, task
    ensures client.Valid() && |client.begun| == |old(client.begun)| + n
    ensures old(client.slept) <= client.slept <= old(client.slept) + 30 * SECOND
    ensures var left := 30 * SECOND - (client.slept - old(client.slept));
            Tells(e, tries, n, |delays|, client.now + left < LatestEnd(client.hints), result)
    // exactly the Retry-After hints of 429 answers extend the hold every clone shares
    ensures old(client.noted) <= client.noted
    ensures n <= |tries| && Asked(client.noted[|old(client.noted)|..]) == Throttles(tries, n)
    ensures forall h <- client.noted :: h in client.hints
  {
    var operation := Operation(e, tries);
    ghost var slept := client.slept;
    result, n := client.WithRetryReporting(task, delays, operation);
    WireAgrees(e, tries, operation, n);
    ghost var held := client.now + (30 * SECOND - (client.slept - slept)) < LatestEnd(client.hints);
    CallTells(e, tries, operation, n, |delays|, held, result, client.slept - slept);
    result := Corrected(e, result);
  }

  lemma WireAgrees(e: Endpoint, tries: seq<Try>, operation: seq<Attempt>, n: nat)
    requires operation == Operation(e, tries) && n <= |tries|
    ensures Plays(e, tries, operation)
    ensures LastApiStatus(AnswersOf(operation, n)) == LastStatus(tries, n)
    ensures OwnHints(operation, n) == Throttles(tries, n)
  {
    forall k | 0 <= k < |tries|
      ensures LastApiStatus(operation[k].answers) == MetStatus(tries[k].met)
      ensures HintOf(operation[k].outcome) == Throttle(tries[k].met)
    {
      StatusOfTry(e, tries[k]);
      OutcomesAgree(e, tries[k].met);
    }
    StatusesAgree(tries, operation, n);
    HintsAgree(tries, operation, n);
  }
}
