/** The error taxonomy of the mint and of the issuer client: which failures are
    throttles, which are retried, and which may have reached Alpaca. */
module Errors {
  import opened Basics

  /** A failed token mint. `retryAfter` was capped when the answer was read. */
  datatype KmsJwtError =
    | Http
    | KmsStatus(status: nat, retryAfter: Option<Duration>)
    | TokenStatus(status: nat, retryAfter: Option<Duration>)
    | LocalFailure  // encoding, signing, header and clock failures
    | MintNotSent   // the caller's send gate was closed

  predicate IsDeterministic(e: KmsJwtError) {
    match e
    case KmsStatus(status, _) => DeterministicStatus(status)
    case TokenStatus(status, _) => DeterministicStatus(status)
    case LocalFailure => true
    case MintNotSent => true
    case Http => false
  }

  predicate DeterministicStatus(status: nat) {
    300 <= status < 400 || (400 <= status < 500 && status != 429 && status != 408)
  }

  predicate IsRateLimited(e: KmsJwtError) {
    (e.TokenStatus? || e.KmsStatus?) && e.status == 429
  }

  function RetryAfterOf(e: KmsJwtError): Option<Duration> {
    if e.TokenStatus? || e.KmsStatus? then e.retryAfter else None
  }

  /** The `Retry-After` header of a failed sign or exchange, capped. */
  function ThrottleHint(header: Option<Duration>): (hint: Option<Duration>)
    ensures hint.Some? <==> header.Some?
    ensures hint.Some? ==> hint.value <= header.value && hint.value <= MAX_RETRY_AFTER_HOLD
    ensures hint.Some? ==> hint == header || hint.value == MAX_RETRY_AFTER_HOLD
  {
    if header.Some? then Some(Min(header.value, MAX_RETRY_AFTER_HOLD)) else None
  }

  datatype ReqwestError = ReqwestError(isBuilder: bool, isConnect: bool, isDecode: bool)

  datatype AlpacaError =
    | InvalidUrl
    | Reqwest(source: ReqwestError)
    | Jwt(mint: KmsJwtError)
    | Parse
    | Auth
    | Api(statusCode: nat)
    | RateLimited(retryAfter: Option<Duration>)
    | RequestNotFound
    | ResponseIdMismatch
    | UnsupportedTokenizationNetwork
    | NotSent

  predicate RetryableStatus(status: nat) { 500 <= status <= 599 || status == 429 }

  predicate IsRetryable(e: AlpacaError) {
    match e
    case Reqwest(source) => !source.isDecode
    case Api(status) => RetryableStatus(status)
    case RateLimited(_) => true
    case Jwt(mint) => !IsDeterministic(mint)
    case _ => false
  }

  /** The wait an error asks every clone of the client to observe. */
  function BackpressureHint(e: AlpacaError): Option<Duration> {
    match e
    case RateLimited(retryAfter) => retryAfter
    case Jwt(mint) => if IsRateLimited(mint) then RetryAfterOf(mint) else None
    case _ => None
  }

  predicate MayHaveReachedAlpaca(e: AlpacaError) {
    match e
    case Api(status) => !(400 <= status < 500) || status == 408
    case Reqwest(source) => !(source.isBuilder || source.isConnect)
    case Parse => true
    case ResponseIdMismatch => true
    case _ => false
  }
}
