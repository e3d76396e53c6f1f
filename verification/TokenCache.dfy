/** The shared token cache of `KmsJwtAuth`: one cached token with a soft and a hard
    deadline, a mint lock, and a Retry-After hold on mints.

    Any number of `access_token` calls interleave. Each call is a program counter in
    `calls`; every critical section of the source is one step, and so is every clock
    reading made outside one. The clock moves by `Tick`, the token endpoint answers by
    `Answer`, and `Drop` cancels a call wherever it awaits. An action that the call's
    program counter does not enable changes nothing, so a run is any list of actions. */
module TokenCache {
  import opened Basics
  import opened Errors

  const TOKEN_REFRESH_MARGIN: Duration := 2 * MINUTE
  const TOKEN_HARD_MARGIN: Duration := 10 * SECOND
  const FAILED_MINT_BACKOFF: Duration := 15 * SECOND
  const TOKEN_MAX_LIFETIME: Duration := HOUR

  type Caller = nat

  /** One successful mint: who ran it, the instant its deadlines count from, and the
      `expires_in` seconds the endpoint stated. */
  datatype Mint = Mint(minter: Caller, at: Time, expiresIn: nat)

  /** `token` numbers the mint that produced the cached token. */
  datatype CachedToken = CachedToken(token: nat, refreshAfter: Time, hardExpiry: Time)

  datatype Hold = Hold(started: Time, delay: Duration)

  /** What the sign and exchange round trips gave a mint. */
  datatype MintAnswer =
    | Granted(expiresIn: nat)
    | KmsRefused(status: nat, header: Option<Duration>)
    | TokenRefused(status: nat, header: Option<Duration>)
    | NoAnswer
    | BrokenLocally

  datatype Pc =
    | SoftCheck
    | TryLock
    | HardCheck                      // the lock was busy
    | WaitLock
    | LockedSoftCheck
    | HoldCheck
    | HeldBack(wait: Duration)       // inside the hold: ride or refuse
    | AskGate
    | Minting
    | Storing(mint: Mint)            // granted, clock read, cache not written yet
    | MintFailed(error: KmsJwtError)
    | HoldStamped(at: Time, delay: Duration, error: KmsJwtError)
    | RideCheck(error: KmsJwtError)
    | Deferring(hint: Duration)      // rides the cached token, defers the refresh
    | Returning                      // the outcome is settled, the lock guard not dropped yet

  /** What happened, in order; `cached` is the cache as it stood. */
  datatype Event =
    | Served(caller: Caller, at: Time, token: nat, fromCache: bool)
    | MintStarted(caller: Caller, at: Time, cached: Option<CachedToken>)
    | MintErred(caller: Caller, at: Time, error: KmsJwtError, cached: Option<CachedToken>)
    | HoldSet(at: Time, delay: Duration)
    | Rode(at: Time, hint: Duration, hardExpiry: Time)
    | Refused(caller: Caller, at: Time, wait: Duration, cached: Option<CachedToken>)
    | GaveUp(caller: Caller, at: Time, error: KmsJwtError, cached: Option<CachedToken>)
    | MintHeldBack(caller: Caller)

  datatype State = State(
    now: Time,
    cached: Option<CachedToken>,
    lock: Option<Caller>,
    hold: Option<Hold>,
    calls: map<Caller, Pc>,
    mints: seq<Mint>,
    log: seq<Event>)

  datatype Action =
    | Tick(elapsed: Duration)
    | Arrive(caller: Caller)
    | Advance(caller: Caller)
    | Gate(caller: Caller, open: bool)
    | Answer(caller: Caller, answer: MintAnswer)
    | Drop(caller: Caller)

  function Init(now: Time): State {
    State(now, None, None, None, map[], [], [])
  }

  // ----- deadline arithmetic of a mint

  function Lifetime(m: Mint): Duration {
    Min(m.expiresIn * SECOND, TOKEN_MAX_LIFETIME)
  }

  function HardExpiry(m: Mint): Time {
    m.at + SatSub(Lifetime(m), TOKEN_HARD_MARGIN)
  }

  function RefreshAfter(m: Mint): Time {
    Min(m.at + Max(SatSub(Lifetime(m), TOKEN_REFRESH_MARGIN), Lifetime(m) / 2), HardExpiry(m))
  }

  function MintError(answer: MintAnswer): KmsJwtError
    requires !answer.Granted?
  {
    match answer
    case KmsRefused(status, header) => KmsStatus(status, ThrottleHint(header))
    case TokenRefused(status, header) => TokenStatus(status, ThrottleHint(header))
    case NoAnswer => Http
    case BrokenLocally => LocalFailure
  }

  /** How long a failed mint defers the next one. */
  function HintOf(error: KmsJwtError): Duration { GetOr(RetryAfterOf(error), 0) }

  /** The hold a throttled mint sets: its hint clamped to [15 s, 5 min]. */
  function HoldDelay(error: KmsJwtError): Duration {
    Min(Max(HintOf(error), FAILED_MINT_BACKOFF), MAX_RETRY_AFTER_HOLD)
  }

  function HoldWait(hold: Option<Hold>, now: Time): Duration {
    if hold.None? then 0 else SatSub(hold.value.delay, SatSub(now, hold.value.started))
  }

  function Deadline(h: Hold): Time { h.started + h.delay }

  /** The earliest instant a mint may start after a ride. */
  function RideBound(at: Time, hint: Duration, hardExpiry: Time): Time {
    Min(at + Max(FAILED_MINT_BACKOFF, hint), hardExpiry)
  }

  // ----- steps

  predicate Fresh(s: State) { s.cached.Some? && s.now < s.cached.value.refreshAfter }

  predicate Usable(s: State) { s.cached.Some? && s.now < s.cached.value.hardExpiry }

  function Goto(s: State, c: Caller, pc: Pc): State { s.(calls := s.calls[c := pc]) }

  function Log(s: State, e: Event): State { s.(log := s.log + [e]) }

  /** The call ends; its lock guard, if it holds one, is dropped. */
  function Finish(s: State, c: Caller): State {
    s.(calls := s.calls - {c}, lock := if s.lock == Some(c) then None else s.lock)
  }

  /** The call has its outcome. A lock guard is dropped only when it returns. */
  function Conclude(s: State, c: Caller): State
    requires c in s.calls
  {
    if HoldsLock(s.calls[c]) then Goto(s, c, Returning) else Finish(s, c)
  }

  function Acquire(s: State, c: Caller): State {
    Goto(s, c, LockedSoftCheck).(lock := Some(c))
  }

  function ServeCached(s: State, c: Caller): State
    requires s.cached.Some?
  {
    Log(s, Served(c, s.now, s.cached.value.token, true))
  }

  function Store(s: State, c: Caller, m: Mint): State {
    var id := |s.mints|;
    var t := s.(mints := s.mints + [m], cached := Some(CachedToken(id, RefreshAfter(m), HardExpiry(m))));
    Goto(Log(t, Served(c, s.now, id, false)), c, Returning)
  }

  function Defer(s: State, c: Caller, hint: Duration): State
    requires s.cached.Some?
  {
    var t := s.cached.value;
    var bound := RideBound(s.now, hint, t.hardExpiry);
    Goto(Log(s.(cached := Some(t.(refreshAfter := bound))), Rode(s.now, hint, t.hardExpiry)), c, Returning)
  }

  function AdvanceCall(s: State, c: Caller): State
    requires c in s.calls
  {
    match s.calls[c]
    case SoftCheck =>
      if Fresh(s) then Conclude(ServeCached(s, c), c) else Goto(s, c, TryLock)
    case TryLock =>
      if s.lock.None? then Acquire(s, c) else Goto(s, c, HardCheck)
    case HardCheck =>
      if Usable(s) then Conclude(ServeCached(s, c), c) else Goto(s, c, WaitLock)
    case WaitLock =>
      if s.lock.None? then Acquire(s, c) else s
    case LockedSoftCheck =>
      if Fresh(s) then Conclude(ServeCached(s, c), c) else Goto(s, c, HoldCheck)
    case HoldCheck =>
      var wait := HoldWait(s.hold, s.now);
      if wait > 0 then Goto(s, c, HeldBack(wait)) else Goto(s, c, AskGate)
    case HeldBack(wait) =>
      if Usable(s) then Conclude(ServeCached(s, c), c) else Conclude(Log(s, Refused(c, s.now, wait, s.cached)), c)
    case Storing(mint) => Store(s, c, mint)
    case MintFailed(error) =>
      if IsRateLimited(error) then Goto(s, c, HoldStamped(s.now, HoldDelay(error), error))
      else Goto(s, c, RideCheck(error))
    case HoldStamped(at, delay, error) =>
      Log(Goto(s, c, RideCheck(error)), HoldSet(at, delay)).(hold := Some(Hold(at, delay)))
    case RideCheck(error) =>
      if Usable(s) then Goto(ServeCached(s, c), c, Deferring(HintOf(error)))
      else Conclude(Log(s, GaveUp(c, s.now, error, s.cached)), c)
    case Deferring(hint) =>
      if s.cached.Some? then Defer(s, c, hint) else Conclude(s, c)
    case Returning => Finish(s, c)
    case AskGate => s
    case Minting => s
  }

  function GateCall(s: State, c: Caller, open: bool): State
    requires c in s.calls && s.calls[c].AskGate?
  {
    if open then Log(Goto(s, c, Minting), MintStarted(c, s.now, s.cached))
    else Conclude(Log(s, MintHeldBack(c)), c)
  }

  function AnswerCall(s: State, c: Caller, answer: MintAnswer): State
    requires c in s.calls && s.calls[c].Minting?
  {
    if answer.Granted? then Goto(s, c, Storing(Mint(c, s.now, answer.expiresIn)))
    else
      var error := MintError(answer);
      Log(Goto(s, c, MintFailed(error)), MintErred(c, s.now, error, s.cached))
  }

  /** A call can be cancelled before it runs and where it awaits; a waiter may already have
      been handed the lock when it is. */
  predicate Awaits(pc: Pc) { pc.SoftCheck? || pc.WaitLock? || pc.LockedSoftCheck? || pc.Minting? }

  function Step(s: State, a: Action): State {
    match a
    case Tick(elapsed) => s.(now := s.now + elapsed)
    case Arrive(c) => if c in s.calls then s else Goto(s, c, SoftCheck)
    case Advance(c) => if c in s.calls then AdvanceCall(s, c) else s
    case Gate(c, open) => if c in s.calls && s.calls[c].AskGate? then GateCall(s, c, open) else s
    case Answer(c, answer) =>
      if c in s.calls && s.calls[c].Minting? then AnswerCall(s, c, answer) else s
    case Drop(c) => if c in s.calls && Awaits(s.calls[c]) then Finish(s, c) else s
  }

  function Run(s: State, actions: seq<Action>): State {
    if actions == [] then s
    else Step(Run(s, actions[..|actions| - 1]), actions[|actions| - 1])
  }

  // ----- the inductive invariant

  predicate HoldsLock(pc: Pc) {
    !(pc.SoftCheck? || pc.TryLock? || pc.HardCheck? || pc.WaitLock?)
  }

  /** The holder found the cached token past its soft deadline, and has not replaced it. */
  predicate PastSoftCheck(pc: Pc) { HoldsLock(pc) && !pc.LockedSoftCheck? && !pc.Returning? }

  /** The holder found no hold ahead and has set none since. */
  predicate PastHoldCheck(pc: Pc) {
    pc.AskGate? || pc.Minting? || pc.Storing? || pc.MintFailed? || pc.HoldStamped?
  }

  ghost predicate LockInv(s: State) {
    && (forall c <- s.calls :: HoldsLock(s.calls[c]) ==> s.lock == Some(c))
    && (s.lock.Some? ==> s.lock.value in s.calls && HoldsLock(s.calls[s.lock.value]))
  }

  ghost predicate CacheInv(s: State) {
    && (s.cached.Some? <==> s.mints != [])
    && (s.cached.Some? ==>
          var t := s.cached.value;
          && t.token == |s.mints| - 1
          && RefreshAfter(s.mints[t.token]) <= t.refreshAfter <= t.hardExpiry == HardExpiry(s.mints[t.token])
          && s.mints[t.token].at <= s.now)
  }

  ghost predicate HoldInv(s: State) {
    s.hold.Some? ==>
      && s.hold.value.started <= s.now
      && FAILED_MINT_BACKOFF <= s.hold.value.delay <= MAX_RETRY_AFTER_HOLD
  }

  predicate HintCapped(error: KmsJwtError) {
    HintOf(error) <= MAX_RETRY_AFTER_HOLD
  }

  predicate PcData(c: Caller, pc: Pc, now: Time) {
    match pc
    case HeldBack(wait) => 0 < wait <= MAX_RETRY_AFTER_HOLD
    case Storing(mint) => mint.at <= now && mint.minter == c
    case MintFailed(error) => HintCapped(error)
    case HoldStamped(at, delay, error) =>
      at <= now && FAILED_MINT_BACKOFF <= delay <= MAX_RETRY_AFTER_HOLD && HintCapped(error)
    case RideCheck(error) => HintCapped(error)
    case Deferring(hint) => hint <= MAX_RETRY_AFTER_HOLD
    case _ => true
  }

  predicate PcInv(s: State, c: Caller, pc: Pc) {
    && PcData(c, pc, s.now)
    && (PastSoftCheck(pc) && s.cached.Some? ==> s.cached.value.refreshAfter <= s.now)
    && (PastHoldCheck(pc) && s.hold.Some? ==>
          Deadline(s.hold.value) <= if pc.HoldStamped? then pc.at else s.now)
  }

  ghost predicate CallsInv(s: State) {
    forall c <- s.calls :: PcInv(s, c, s.calls[c])
  }

  /** What each entry of the history promises on its own. */
  predicate EventOk(mints: seq<Mint>, e: Event) {
    match e
    case Served(c, at, token, fromCache) =>
      && token < |mints|
      && (fromCache ==> mints[token].at <= at < HardExpiry(mints[token]))
      && (!fromCache ==> mints[token].minter == c)
    case MintStarted(_, at, cached) => cached.Some? ==> cached.value.refreshAfter <= at
    case Refused(_, at, wait, cached) =>
      0 < wait <= MAX_RETRY_AFTER_HOLD && (cached.Some? ==> cached.value.hardExpiry <= at)
    case GaveUp(_, at, _, cached) => cached.Some? ==> cached.value.hardExpiry <= at
    case _ => true
  }

  /** The earliest instant a mint may start after a failed one. */
  function RideBoundOf(e: Event): Time
    requires e.MintErred?
  {
    if e.cached.None? then 0 else RideBound(e.at, HintOf(e.error), e.cached.value.hardExpiry)
  }

  /** A mint may start at `at` although `e` came before it. */
  predicate AllowsMintAt(e: Event, at: Time) {
    && (e.HoldSet? ==> e.at + e.delay <= at)
    && (e.Rode? ==> RideBound(e.at, e.hint, e.hardExpiry) <= at)
    && (e.MintErred? ==> RideBoundOf(e) <= at && (IsRateLimited(e.error) ==> e.at + HoldDelay(e.error) <= at))
  }

  predicate HeldUntil(s: State, at: Time) { s.hold.Some? && at <= Deadline(s.hold.value) }

  predicate DeferredUntil(s: State, at: Time) {
    at <= s.now || (s.cached.Some? && at <= s.cached.value.refreshAfter)
  }

  /** The failure `e` is in its caller's hands, and the hold is still to be written. */
  predicate HoldPending(s: State, e: Event)
    requires e.MintErred?
  {
    && e.caller in s.calls && e.at <= s.now
    && match s.calls[e.caller]
       case MintFailed(error) => error == e.error
       case HoldStamped(at, delay, error) => error == e.error && e.at <= at && delay == HoldDelay(error)
       case _ => false
  }

  /** The failure `e` is in its caller's hands, and the refresh is still to be deferred. */
  predicate RidePending(s: State, e: Event)
    requires e.MintErred?
  {
    && e.caller in s.calls && e.cached == s.cached && e.at <= s.now
    && match s.calls[e.caller]
       case MintFailed(error) => error == e.error
       case HoldStamped(_, _, error) => error == e.error
       case RideCheck(error) => error == e.error
       case Deferring(hint) => hint == HintOf(e.error)
       case _ => false
  }

  /** `e` is still enforced by the stored hold, the cached soft deadline, or the lock. */
  predicate StillEnforced(s: State, e: Event) {
    && (e.HoldSet? ==> HeldUntil(s, e.at + e.delay))
    && (e.Rode? ==> DeferredUntil(s, RideBound(e.at, e.hint, e.hardExpiry)))
    && (e.MintErred? ==>
          && (IsRateLimited(e.error) ==> HeldUntil(s, e.at + HoldDelay(e.error)) || HoldPending(s, e))
          && (DeferredUntil(s, RideBoundOf(e)) || RidePending(s, e)))
  }

  ghost predicate EventsOk(s: State) { forall e <- s.log :: EventOk(s.mints, e) }

  ghost predicate Enforced(s: State) { forall e <- s.log :: StillEnforced(s, e) }

  ghost predicate MintsWaited(log: seq<Event>) {
    forall i, j :: 0 <= i < j < |log| && log[j].MintStarted? ==> AllowsMintAt(log[i], log[j].at)
  }

  /** All but the pending duties of the history. */
  ghost predicate CoreInv(s: State) {
    LockInv(s) && CacheInv(s) && HoldInv(s) && CallsInv(s) && EventsOk(s) && MintsWaited(s.log)
  }

  ghost predicate Inv(s: State) { CoreInv(s) && Enforced(s) }

  lemma MintMargins(m: Mint)
    ensures RefreshAfter(m) <= HardExpiry(m)
    ensures m.at < HardExpiry(m) ==> HardExpiry(m) == m.at + Lifetime(m) - TOKEN_HARD_MARGIN
  {
  }

  // ----- the history stays enforced

  /** A failed mint is in this call's hands. */
  predicate Settling(pc: Pc) { pc.MintFailed? || pc.HoldStamped? || pc.RideCheck? || pc.Deferring? }

  /** No stored deadline moves earlier, except one the clock has passed. */
  predicate KeepsDeadlines(s: State, t: State) {
    && s.now <= t.now
    && (s.hold.Some? ==> HeldUntil(t, Deadline(s.hold.value)))
    && (s.cached.Some? ==> DeferredUntil(t, s.cached.value.refreshAfter))
  }

  /** A step of a call that has no failure in hand, or of the clock. */
  lemma EnforcementSurvives(s: State, t: State, c: Caller)
    requires Enforced(s) && t.log == s.log && KeepsDeadlines(s, t)
    requires c in s.calls ==> !Settling(s.calls[c])
    requires forall d <- s.calls :: d != c ==> d in t.calls && t.calls[d] == s.calls[d]
    requires t.cached == s.cached || forall d <- s.calls :: !Settling(s.calls[d])
    ensures Enforced(t)
  {
    forall e | e in t.log ensures StillEnforced(t, e) {
      assert StillEnforced(s, e);
    }
  }

  /** A step of the one call that has a failure in hand. */
  lemma SettlingStepKeepsEnforced(s: State, t: State, c: Caller)
    requires Enforced(s) && LockInv(s) && t.log == s.log && KeepsDeadlines(s, t)
    requires c in s.calls && Settling(s.calls[c])
    requires forall e <- s.log :: e.MintErred? && e.caller == c ==>
               && (HoldPending(s, e) && IsRateLimited(e.error) ==>
                     HeldUntil(t, e.at + HoldDelay(e.error)) || HoldPending(t, e))
               && (RidePending(s, e) ==> DeferredUntil(t, RideBoundOf(e)) || RidePending(t, e))
    ensures Enforced(t)
  {
    forall e | e in t.log ensures StillEnforced(t, e) {
      assert StillEnforced(s, e);
      if e.MintErred? && e.caller != c && e.caller in s.calls {
        assert !Settling(s.calls[e.caller]);
      }
    }
  }

  lemma StartingMintWaited(s: State, c: Caller)
    requires Inv(s) && c in s.calls && s.calls[c].AskGate?
    ensures MintsWaited(s.log + [MintStarted(c, s.now, s.cached)])
  {
    assert PcInv(s, c, s.calls[c]);
    forall e | e in s.log ensures AllowsMintAt(e, s.now) {
      assert StillEnforced(s, e);
      if e.MintErred? && e.caller in s.calls {
        assert !Settling(s.calls[e.caller]);
      }
    }
  }

  // ----- what each step keeps

  lemma GotoKeepsCore(s: State, c: Caller, pc: Pc)
    requires CoreInv(s) && c in s.calls && HoldsLock(pc) == HoldsLock(s.calls[c])
    requires PcInv(s, c, pc)
    ensures CoreInv(Goto(s, c, pc))
  {
  }

  lemma GotoKeepsInv(s: State, c: Caller, pc: Pc)
    requires Inv(s) && c in s.calls && HoldsLock(pc) == HoldsLock(s.calls[c])
    requires PcInv(s, c, pc) && !Settling(s.calls[c])
    ensures Inv(Goto(s, c, pc))
  {
    GotoKeepsCore(s, c, pc);
    EnforcementSurvives(s, Goto(s, c, pc), c);
  }

  lemma FinishKeepsCore(s: State, c: Caller)
    requires CoreInv(s)
    ensures CoreInv(Finish(s, c))
    ensures c in s.calls && HoldsLock(s.calls[c]) ==> Finish(s, c).lock.None?
  {
  }

  lemma FinishKeepsInv(s: State, c: Caller)
    requires Inv(s) && (c in s.calls ==> !Settling(s.calls[c]))
    ensures Inv(Finish(s, c))
  {
    FinishKeepsCore(s, c);
    EnforcementSurvives(s, Finish(s, c), c);
  }

  lemma ConcludeKeepsInv(s: State, c: Caller)
    requires Inv(s) && c in s.calls && !Settling(s.calls[c])
    ensures Inv(Conclude(s, c))
  {
    if HoldsLock(s.calls[c]) { GotoKeepsInv(s, c, Returning); } else { FinishKeepsInv(s, c); }
  }

  lemma LogKeepsInv(s: State, e: Event)
    requires Inv(s) && EventOk(s.mints, e) && StillEnforced(s, e) && !e.MintStarted?
    ensures Inv(Log(s, e))
  {
    var t := Log(s, e);
    forall f | f in t.log ensures StillEnforced(t, f) && EventOk(t.mints, f) {
      assert f == e || f in s.log;
      assert StillEnforced(s, f) && EventOk(s.mints, f);
    }
  }

  lemma AcquireKeepsInv(s: State, c: Caller)
    requires Inv(s) && c in s.calls && s.lock.None?
    ensures Inv(Acquire(s, c))
  {
    EnforcementSurvives(s, Acquire(s, c), c);
  }

  lemma ServeKeepsInv(s: State, c: Caller)
    requires Inv(s) && Usable(s)
    ensures Inv(ServeCached(s, c))
    ensures c in s.calls && !Settling(s.calls[c]) ==> Inv(Conclude(ServeCached(s, c), c))
  {
    LogKeepsInv(s, Served(c, s.now, s.cached.value.token, true));
    if c in s.calls && !Settling(s.calls[c]) { ConcludeKeepsInv(ServeCached(s, c), c); }
  }

  /** Nobody relies on the soft deadline being past, so a later one contradicts no check. */
  lemma RefreshKeepsCore(s: State, c: Caller, mints: seq<Mint>, t: CachedToken)
    requires CoreInv(s) && c in s.calls && s.calls[c].Returning? && s.mints <= mints
    requires |mints| > 0 && t.token == |mints| - 1
    requires RefreshAfter(mints[t.token]) <= t.refreshAfter <= t.hardExpiry == HardExpiry(mints[t.token])
    requires mints[t.token].at <= s.now
    ensures CoreInv(s.(mints := mints, cached := Some(t)))
  {
    var u := s.(mints := mints, cached := Some(t));
    forall e | e in u.log ensures EventOk(mints, e) {
      assert EventOk(s.mints, e);
    }
  }

  lemma StoreKeepsInv(s: State, c: Caller, m: Mint)
    requires Inv(s) && c in s.calls && s.calls[c] == Storing(m)
    ensures Inv(Store(s, c, m))
  {
    assert PcInv(s, c, s.calls[c]);
    MintMargins(m);
    GotoKeepsCore(s, c, Returning);
    var id := |s.mints|;
    var t := CachedToken(id, RefreshAfter(m), HardExpiry(m));
    var u := Goto(s, c, Returning).(mints := s.mints + [m], cached := Some(t));
    RefreshKeepsCore(Goto(s, c, Returning), c, s.mints + [m], t);
    EnforcementSurvives(s, u, c);
    LogKeepsInv(u, Served(c, s.now, id, false));
    assert Store(s, c, m) == Log(u, Served(c, s.now, id, false));
  }

  lemma DeferKeepsInv(s: State, c: Caller, hint: Duration)
    requires Inv(s) && c in s.calls && s.calls[c] == Deferring(hint) && s.cached.Some?
    ensures Inv(Defer(s, c, hint))
  {
    assert PcInv(s, c, s.calls[c]);
    GotoKeepsCore(s, c, Returning);
    var t := s.cached.value;
    var t' := t.(refreshAfter := RideBound(s.now, hint, t.hardExpiry));
    RefreshKeepsCore(Goto(s, c, Returning), c, s.mints, t');
    var u := Goto(s, c, Returning).(cached := Some(t'));
    SettlingStepKeepsEnforced(s, u, c);
    LogKeepsInv(u, Rode(s.now, hint, t.hardExpiry));
    assert Defer(s, c, hint) == Log(u, Rode(s.now, hint, t.hardExpiry));
  }

  /** The overwrite that compares nothing: the stored hold had elapsed before the clock
      reading in hand, and nobody else can have set one since. */
  lemma SetHoldKeepsInv(s: State, c: Caller, at: Time, delay: Duration, error: KmsJwtError)
    requires Inv(s) && c in s.calls && s.calls[c] == HoldStamped(at, delay, error)
    ensures Inv(AdvanceCall(s, c))
  {
    assert PcInv(s, c, s.calls[c]);
    var t := Goto(s, c, RideCheck(error));
    GotoKeepsCore(s, c, RideCheck(error));
    var u := t.(hold := Some(Hold(at, delay)));
    SettlingStepKeepsEnforced(s, u, c);
    assert CallsInv(u) by {
      forall d | d in u.calls ensures PcInv(u, d, u.calls[d]) { assert PcInv(t, d, t.calls[d]); }
    }
    LogKeepsInv(u, HoldSet(at, delay));
  }

  lemma UnlockedStepKeepsInv(s: State, c: Caller)
    requires Inv(s) && c in s.calls && !HoldsLock(s.calls[c])
    ensures Inv(AdvanceCall(s, c))
  {
    assert CacheInv(s);
    match s.calls[c] {
      case SoftCheck => if Fresh(s) { ServeKeepsInv(s, c); } else { GotoKeepsInv(s, c, TryLock); }
      case TryLock => if s.lock.None? { AcquireKeepsInv(s, c); } else { GotoKeepsInv(s, c, HardCheck); }
      case HardCheck => if Usable(s) { ServeKeepsInv(s, c); } else { GotoKeepsInv(s, c, WaitLock); }
      case WaitLock => if s.lock.None? { AcquireKeepsInv(s, c); }
    }
  }

  lemma CheckingStepKeepsInv(s: State, c: Caller)
    requires Inv(s) && c in s.calls
    requires s.calls[c].LockedSoftCheck? || s.calls[c].HoldCheck? || s.calls[c].HeldBack?
    ensures Inv(AdvanceCall(s, c))
  {
    assert CacheInv(s) && PcInv(s, c, s.calls[c]);
    match s.calls[c] {
      case LockedSoftCheck => if Fresh(s) { ServeKeepsInv(s, c); } else { GotoKeepsInv(s, c, HoldCheck); }
      case HoldCheck =>
        var wait := HoldWait(s.hold, s.now);
        GotoKeepsInv(s, c, if wait > 0 then HeldBack(wait) else AskGate);
      case HeldBack(wait) =>
        if Usable(s) {
          ServeKeepsInv(s, c);
        } else {
          var refusal := Refused(c, s.now, wait, s.cached);
          LogKeepsInv(s, refusal);
          ConcludeKeepsInv(Log(s, refusal), c);
        }
    }
  }

  lemma RideStepKeepsInv(s: State, c: Caller, error: KmsJwtError)
    requires Inv(s) && c in s.calls && s.calls[c] == RideCheck(error)
    ensures Inv(AdvanceCall(s, c))
  {
    assert PcInv(s, c, s.calls[c]);
    if Usable(s) {
      ServeKeepsInv(s, c);
      RideKeepsInv(ServeCached(s, c), c, error);
    } else {
      var gaveUp := GaveUp(c, s.now, error, s.cached);
      LogKeepsInv(s, gaveUp);
      GiveUpKeepsInv(Log(s, gaveUp), c, error);
    }
  }

  lemma RideKeepsInv(s: State, c: Caller, error: KmsJwtError)
    requires Inv(s) && c in s.calls && s.calls[c] == RideCheck(error)
    ensures Inv(Goto(s, c, Deferring(HintOf(error))))
  {
    assert PcInv(s, c, s.calls[c]);
    GotoKeepsCore(s, c, Deferring(HintOf(error)));
    SettlingStepKeepsEnforced(s, Goto(s, c, Deferring(HintOf(error))), c);
  }

  /** Without a usable token there is nothing to defer: the hard deadline has passed. */
  lemma GiveUpKeepsInv(s: State, c: Caller, error: KmsJwtError)
    requires Inv(s) && c in s.calls && s.calls[c] == RideCheck(error) && !Usable(s)
    ensures Inv(Conclude(s, c))
  {
    GotoKeepsCore(s, c, Returning);
    SettlingStepKeepsEnforced(s, Conclude(s, c), c);
  }

  lemma FailedStepKeepsInv(s: State, c: Caller, error: KmsJwtError)
    requires Inv(s) && c in s.calls && s.calls[c] == MintFailed(error)
    ensures Inv(AdvanceCall(s, c))
  {
    assert PcInv(s, c, s.calls[c]);
    var pc := if IsRateLimited(error) then HoldStamped(s.now, HoldDelay(error), error) else RideCheck(error);
    GotoKeepsCore(s, c, pc);
    SettlingStepKeepsEnforced(s, Goto(s, c, pc), c);
  }

  /** A call only defers while a token is cached. */
  lemma NothingToDefer(s: State, c: Caller)
    requires Inv(s) && c in s.calls && s.calls[c].Deferring? && s.cached.None?
    ensures Inv(Conclude(s, c))
  {
    GotoKeepsCore(s, c, Returning);
    SettlingStepKeepsEnforced(s, Conclude(s, c), c);
  }

  lemma AdvanceKeepsInv(s: State, c: Caller)
    requires Inv(s) && c in s.calls
    ensures Inv(AdvanceCall(s, c))
  {
    match s.calls[c] {
      case SoftCheck | TryLock | HardCheck | WaitLock => UnlockedStepKeepsInv(s, c);
      case LockedSoftCheck | HoldCheck | HeldBack(_) => CheckingStepKeepsInv(s, c);
      case Storing(mint) => StoreKeepsInv(s, c, mint);
      case MintFailed(error) => FailedStepKeepsInv(s, c, error);
      case HoldStamped(at, delay, error) => SetHoldKeepsInv(s, c, at, delay, error);
      case RideCheck(error) => RideStepKeepsInv(s, c, error);
      case Deferring(hint) =>
        if s.cached.Some? { DeferKeepsInv(s, c, hint); } else { NothingToDefer(s, c); }
      case Returning => FinishKeepsInv(s, c);
      case AskGate | Minting =>
    }
  }

  lemma LogStartKeepsInv(s: State, e: Event)
    requires Inv(s) && e.MintStarted? && EventOk(s.mints, e) && MintsWaited(s.log + [e])
    ensures Inv(Log(s, e))
  {
    var t := Log(s, e);
    forall f | f in t.log ensures StillEnforced(t, f) && EventOk(t.mints, f) {
      assert f == e || f in s.log;
      assert f in s.log ==> StillEnforced(s, f) && EventOk(s.mints, f);
    }
  }

  lemma GateKeepsInv(s: State, c: Caller, open: bool)
    requires Inv(s) && c in s.calls && s.calls[c].AskGate?
    ensures Inv(GateCall(s, c, open))
  {
    assert PcInv(s, c, s.calls[c]);
    if open {
      StartingMintWaited(s, c);
      GotoKeepsInv(s, c, Minting);
      LogStartKeepsInv(Goto(s, c, Minting), MintStarted(c, s.now, s.cached));
    } else {
      LogKeepsInv(s, MintHeldBack(c));
      ConcludeKeepsInv(Log(s, MintHeldBack(c)), c);
    }
  }

  lemma AnswerKeepsInv(s: State, c: Caller, answer: MintAnswer)
    requires Inv(s) && c in s.calls && s.calls[c].Minting?
    ensures Inv(AnswerCall(s, c, answer))
  {
    assert PcInv(s, c, s.calls[c]);
    if answer.Granted? {
      GotoKeepsInv(s, c, Storing(Mint(c, s.now, answer.expiresIn)));
    } else {
      var error := MintError(answer);
      GotoKeepsInv(s, c, MintFailed(error));
      LogKeepsInv(Goto(s, c, MintFailed(error)), MintErred(c, s.now, error, s.cached));
    }
  }

  lemma TickKeepsInv(s: State, elapsed: Duration)
    requires Inv(s)
    ensures Inv(s.(now := s.now + elapsed))
  {
    var t := s.(now := s.now + elapsed);
    forall e | e in t.log ensures StillEnforced(t, e) {
      assert StillEnforced(s, e);
    }
  }

  lemma ArriveKeepsInv(s: State, c: Caller)
    requires Inv(s) && c !in s.calls
    ensures Inv(Goto(s, c, SoftCheck))
  {
    EnforcementSurvives(s, Goto(s, c, SoftCheck), c);
  }

  lemma StepKeepsInv(s: State, a: Action)
    requires Inv(s)
    ensures Inv(Step(s, a))
  {
    match a {
      case Advance(c) => if c in s.calls { AdvanceKeepsInv(s, c); }
      case Gate(c, open) => if c in s.calls && s.calls[c].AskGate? { GateKeepsInv(s, c, open); }
      case Answer(c, answer) => if c in s.calls && s.calls[c].Minting? { AnswerKeepsInv(s, c, answer); }
      case Drop(c) => if c in s.calls && Awaits(s.calls[c]) { FinishKeepsInv(s, c); }
      case Tick(elapsed) => TickKeepsInv(s, elapsed);
      case Arrive(c) => if c !in s.calls { ArriveKeepsInv(s, c); }
    }
  }

  lemma {:induction false} RunKeepsInv(s: State, actions: seq<Action>)
    requires Inv(s)
    ensures Inv(Run(s, actions))
  {
    if actions != [] {
      RunKeepsInv(s, actions[..|actions| - 1]);
      StepKeepsInv(Run(s, actions[..|actions| - 1]), actions[|actions| - 1]);
    }
  }

  // ----- what every run promises

  lemma ReachableInv(now: Time, actions: seq<Action>)
    ensures Inv(Run(Init(now), actions))
  {
    RunKeepsInv(Init(now), actions);
  }

  /** A token served from the cache is at least ten seconds short of the lifetime its mint
      was granted, however long the endpoint claimed; only its own minter gets a token
      without that check. */
  lemma CacheServesOnlyLiveTokens(now: Time, actions: seq<Action>, k: nat)
    requires var s := Run(Init(now), actions); k < |s.log| && s.log[k].Served?
    ensures var s := Run(Init(now), actions); var e := s.log[k];
            && e.token < |s.mints|
            && (e.fromCache ==>
                  var m := s.mints[e.token];
                  m.at <= e.at < m.at + Min(m.expiresIn * SECOND, HOUR) - TOKEN_HARD_MARGIN)
            && (!e.fromCache ==> s.mints[e.token].minter == e.caller)
  {
    ReachableInv(now, actions);
    var s := Run(Init(now), actions);
    assert EventOk(s.mints, s.log[k]);
    MintMargins(s.mints[s.log[k].token]);
  }

  lemma OneMintInFlight(now: Time, actions: seq<Action>, c: Caller, d: Caller)
    requires var s := Run(Init(now), actions);
             c in s.calls && d in s.calls && s.calls[c].Minting? && s.calls[d].Minting?
    ensures c == d
  {
    ReachableInv(now, actions);
  }

  /** No mint starts before every hold set earlier in the run has elapsed, nor, after a
      failed mint that rode the cached token at `t`, before
      min(hard expiry, t + max(15 s, hint)). */
  lemma MintsWaitForHoldsAndRides(now: Time, actions: seq<Action>, i: nat, j: nat)
    requires var log := Run(Init(now), actions).log; i < j < |log| && log[j].MintStarted?
    ensures var log := Run(Init(now), actions).log;
            && (log[i].HoldSet? ==> log[i].at + log[i].delay <= log[j].at)
            && (log[i].Rode? ==>
                  Min(log[i].hardExpiry, log[i].at + Max(15 * SECOND, log[i].hint)) <= log[j].at)
  {
    ReachableInv(now, actions);
    var log := Run(Init(now), actions).log;
    assert AllowsMintAt(log[i], log[j].at);
  }

  /** After a mint failed at `t`, whatever its caller then did, the next mint starts no earlier
      than the hold its throttle asked for, nor than min(hard expiry, t + max(15 s, hint)) of
      the token cached at that moment. */
  lemma NextMintWaitsAfterAFailure(now: Time, actions: seq<Action>, i: nat, j: nat)
    requires var log := Run(Init(now), actions).log; i < j < |log| && log[i].MintErred? && log[j].MintStarted?
    ensures var log := Run(Init(now), actions).log; var e := log[i];
            && (IsRateLimited(e.error) ==>
                  e.at + Min(Max(GetOr(RetryAfterOf(e.error), 0), 15 * SECOND), 5 * MINUTE) <= log[j].at)
            && (e.cached.Some? ==>
                  Min(e.cached.value.hardExpiry, e.at + Max(15 * SECOND, GetOr(RetryAfterOf(e.error), 0))) <= log[j].at)
  {
    ReachableInv(now, actions);
    var log := Run(Init(now), actions).log;
    assert AllowsMintAt(log[i], log[j].at);
  }

  /** A mint starts only once the cached token is due for refresh, and a call fails on a
      throttle or a failed mint only when no cached token is left to ride. */
  lemma FailuresMeanNoTokenToRide(now: Time, actions: seq<Action>, k: nat)
    requires k < |Run(Init(now), actions).log|
    ensures var e := Run(Init(now), actions).log[k];
            && (e.MintStarted? && e.cached.Some? ==> e.cached.value.refreshAfter <= e.at)
            && ((e.Refused? || e.GaveUp?) && e.cached.Some? ==> e.cached.value.hardExpiry <= e.at)
  {
    ReachableInv(now, actions);
    var s := Run(Init(now), actions);
    assert EventOk(s.mints, s.log[k]);
  }

  lemma RefusalsCarryABoundedWait(now: Time, actions: seq<Action>, k: nat)
    requires var log := Run(Init(now), actions).log; k < |log| && log[k].Refused?
    ensures 0 < Run(Init(now), actions).log[k].wait <= 5 * MINUTE
  {
    ReachableInv(now, actions);
    var s := Run(Init(now), actions);
    assert EventOk(s.mints, s.log[k]);
  }

  /** From the first granted mint on the cache holds the newest one. With L = min(expires_in,
      1 h), its hard deadline is L - 10 s after the mint, and its soft one lies between
      max(L - 2 min, L / 2) after the mint, or the hard one if that is earlier, and the hard. */
  lemma SoftDeadlineNeverPassesHard(now: Time, actions: seq<Action>)
    ensures var s := Run(Init(now), actions);
            && (s.cached.Some? <==> s.mints != [])
            && (s.cached.Some? ==>
                  var t, m := s.cached.value, s.mints[|s.mints| - 1];
                  var life := Min(m.expiresIn * SECOND, HOUR);
                  && t.token == |s.mints| - 1
                  && t.hardExpiry == m.at + SatSub(life, 10 * SECOND)
                  && Min(m.at + Max(SatSub(life, 2 * MINUTE), life / 2), t.hardExpiry) <= t.refreshAfter
                  && t.refreshAfter <= t.hardExpiry)
  {
    ReachableInv(now, actions);
  }

  // ----- what the endpoints answered, and what follows

  lemma StepExtendsLog(s: State, a: Action)
    ensures s.log <= Step(s, a).log
  {
  }

  lemma {:induction false} RunExtendsLog(s: State, actions: seq<Action>, k: nat)
    requires k <= |actions|
    ensures Run(s, actions[..k]).log <= Run(s, actions).log
  {
    if k == |actions| {
      assert actions[..k] == actions;
    } else {
      var front := actions[..|actions| - 1];
      RunExtendsLog(s, front, k);
      assert front[..k] == actions[..k];
      StepExtendsLog(Run(s, front), actions[|actions| - 1]);
    }
  }

  /** The run up to and with action `k`. */
  lemma RunThrough(s: State, actions: seq<Action>, k: nat)
    requires k < |actions|
    ensures Run(s, actions[..k + 1]) == Step(Run(s, actions[..k]), actions[k])
    ensures Run(s, actions[..k + 1]).log <= Run(s, actions).log
  {
    assert actions[..k + 1][..k] == actions[..k];
    RunExtendsLog(s, actions, k + 1);
  }

  /** A refusal by the signer or by the token endpoint. */
  function Refusal(kms: bool, status: nat, header: Option<Duration>): MintAnswer {
    if kms then KmsRefused(status, header) else TokenRefused(status, header)
  }

  /** The failure a refusal leaves on record. */
  function RefusalEvent(s: State, c: Caller, kms: bool, status: nat, header: Option<Duration>): Event {
    var hint := if header.None? then None else Some(Min(header.value, 5 * MINUTE));
    MintErred(c, s.now, if kms then KmsStatus(status, hint) else TokenStatus(status, hint), s.cached)
  }

  lemma RefusalIsRecorded(s: State, c: Caller, kms: bool, status: nat, header: Option<Duration>)
    requires c in s.calls && s.calls[c].Minting?
    ensures Step(s, Answer(c, Refusal(kms, status, header))).log == s.log + [RefusalEvent(s, c, kms, status, header)]
  {
  }

  /** A mint without an answer, or one that broke on this side, leaves no status and no hint: its
      caller rides a token that may still be sent, and is told the failure otherwise. */
  lemma UnansweredMintRidesOrFails(s: State, c: Caller, local: bool)
    requires c in s.calls && s.calls[c].Minting?
    ensures var error := if local then LocalFailure else Http;
            var failed := Step(s, Answer(c, if local then BrokenLocally else NoAnswer));
            var t := Step(Step(failed, Advance(c)), Advance(c));
            && failed.log == s.log + [MintErred(c, s.now, error, s.cached)]
            && t.hold == s.hold
            && t.log == failed.log + [if s.cached.Some? && s.now < s.cached.value.hardExpiry
                                      then Served(c, s.now, s.cached.value.token, true)
                                      else GaveUp(c, s.now, error, s.cached)]
  {
  }

  lemma RefusalBounds(s: State, c: Caller, kms: bool, status: nat, header: Option<Duration>)
    ensures var error := RefusalEvent(s, c, kms, status, header).error;
            && (IsRateLimited(error) <==> status == 429)
            && GetOr(RetryAfterOf(error), 0) == Min(GetOr(header, 0), 5 * MINUTE)
            && Min(Max(GetOr(RetryAfterOf(error), 0), 15 * SECOND), 5 * MINUTE) ==
               Min(Max(GetOr(header, 0), 15 * SECOND), 5 * MINUTE)
  {
  }

  /** `at` is late enough for a mint after a refusal at `t` with the cache as it stood. */
  predicate LateEnough(at: Time, t: Time, cached: Option<CachedToken>, status: nat, header: Option<Duration>) {
    && (status == 429 ==> t + Min(Max(GetOr(header, 0), 15 * SECOND), 5 * MINUTE) <= at)
    && (cached.Some? ==>
          Min(cached.value.hardExpiry, t + Max(15 * SECOND, Min(GetOr(header, 0), 5 * MINUTE))) <= at)
  }

  lemma NextMintIsLateEnough(now: Time, actions: seq<Action>, i: nat, j: nat, s: State, c: Caller,
                             kms: bool, status: nat, header: Option<Duration>)
    requires var log := Run(Init(now), actions).log;
             i < j < |log| && log[i] == RefusalEvent(s, c, kms, status, header) && log[j].MintStarted?
    ensures LateEnough(Run(Init(now), actions).log[j].at, s.now, s.cached, status, header)
  {
    NextMintWaitsAfterAFailure(now, actions, i, j);
    RefusalBounds(s, c, kms, status, header);
  }

  /** When a mint is answered with `status` and a Retry-After header at `t`, the failure on record
      has that status and the header cut to five minutes. After a 429 no mint starts before
      t + the header, at least 15 s and at most five minutes of it. After any status none starts
      before t + max(15 s, header up to 5 min), or the hard deadline of the token cached then. */
  lemma RefusedMintHoldsTheNext(now: Time, actions: seq<Action>, k: nat, c: Caller,
                                kms: bool, status: nat, header: Option<Duration>)
    requires k < |actions| && actions[k] == Answer(c, Refusal(kms, status, header))
    requires var s := Run(Init(now), actions[..k]); c in s.calls && s.calls[c].Minting?
    ensures var s, log := Run(Init(now), actions[..k]), Run(Init(now), actions).log;
            && |s.log| < |log| && log[|s.log|] == RefusalEvent(s, c, kms, status, header)
            && forall j :: |s.log| < j < |log| && log[j].MintStarted? ==>
                 LateEnough(log[j].at, s.now, s.cached, status, header)
  {
    var s, log := Run(Init(now), actions[..k]), Run(Init(now), actions).log;
    RunThrough(Init(now), actions, k);
    RefusalIsRecorded(s, c, kms, status, header);
    assert log[|s.log|] == RefusalEvent(s, c, kms, status, header);
    forall j | |s.log| < j < |log| && log[j].MintStarted?
      ensures LateEnough(log[j].at, s.now, s.cached, status, header)
    {
      NextMintIsLateEnough(now, actions, |s.log|, j, s, c, kms, status, header);
    }
  }

  /** A mint granted at `t` with `expires_in` is what its caller is served and what is cached
      next: hard deadline t + L - 10 s and soft deadline t + max(L - 2 min, L / 2), or the hard
      one if that is earlier, with L = min(expires_in, 1 h). */
  lemma GrantedMintIsCached(s: State, c: Caller, expiresIn: nat)
    requires c in s.calls && s.calls[c].Minting?
    ensures var granted := Step(s, Answer(c, Granted(expiresIn)));
            var life := Min(expiresIn * SECOND, HOUR);
            var hard := s.now + SatSub(life, 10 * SECOND);
            var soft := Min(s.now + Max(SatSub(life, 2 * MINUTE), life / 2), hard);
            forall elapsed: nat ::
              var t := Step(Step(granted, Tick(elapsed)), Advance(c));
              && t.cached == Some(CachedToken(|s.mints|, soft, hard))
              && t.log == s.log + [Served(c, s.now + elapsed, |s.mints|, false)]
  {
  }

  lemma AdvancingStartsNoMint(s: State, c: Caller)
    requires c in s.calls
    ensures var t := AdvanceCall(s, c); forall j :: |s.log| <= j < |t.log| ==> !t.log[j].MintStarted?
  {
  }

  lemma OnlyGatesStartMints(s: State, a: Action)
    ensures var t := Step(s, a);
            forall j :: |s.log| <= j < |t.log| && t.log[j].MintStarted? ==>
              a == Gate(t.log[j].caller, true) && t.log[j].at == s.now
  {
    if a.Advance? && a.caller in s.calls { AdvancingStartsNoMint(s, a.caller); }
  }

  /** A mint starts only when its caller's gate was asked and found open. */
  lemma MintsStartThroughAnOpenGate(now: Time, actions: seq<Action>, k: nat)
    requires k < |actions|
    ensures var s, t := Run(Init(now), actions[..k]), Run(Init(now), actions[..k + 1]);
            forall j :: |s.log| <= j < |t.log| && t.log[j].MintStarted? ==>
              actions[k] == Gate(t.log[j].caller, true) && t.log[j].at == s.now
  {
    RunThrough(Init(now), actions, k);
    OnlyGatesStartMints(Run(Init(now), actions[..k]), actions[k]);
  }

  /** A token past its soft deadline is not served by a call that has not found the lock busy: the
      call goes on towards a mint. */
  lemma StaleTokensAreRefreshed(s: State, c: Caller)
    requires c in s.calls && (s.calls[c].SoftCheck? || s.calls[c].TryLock? || s.calls[c].LockedSoftCheck?)
    requires s.cached.None? || s.cached.value.refreshAfter <= s.now
    ensures var t := Step(s, Advance(c));
            && t.log == s.log && c in t.calls
            && (s.calls[c].TryLock? && s.lock.None? ==> t.lock == Some(c) && t.calls[c] == LockedSoftCheck)
            && (s.calls[c].LockedSoftCheck? ==> t.calls[c] == HoldCheck)
  {
  }

  /** A fresh token is served without the lock, and while another call holds the lock a token
      that may still be sent is served without waiting for it. */
  lemma UsableTokensAreServedAtOnce(s: State, c: Caller)
    requires c in s.calls && s.cached.Some?
    requires || (s.calls[c].SoftCheck? && s.now < s.cached.value.refreshAfter)
             || (s.calls[c].HardCheck? && s.now < s.cached.value.hardExpiry)
    ensures var t := Step(s, Advance(c));
            t.log == s.log + [Served(c, s.now, s.cached.value.token, true)] && c !in t.calls
  {
  }

  /** How the stored deadlines may differ between an earlier and a later state of a run. */
  ghost predicate NeverEarlier(s: State, t: State) {
    && (s.hold.Some? ==> t.hold.Some? && Deadline(s.hold.value) <= Deadline(t.hold.value))
    && (s.cached.Some? ==>
          && t.cached.Some?
          && s.cached.value.token <= t.cached.value.token
          && (s.cached.value.token == t.cached.value.token ==>
                && s.cached.value.refreshAfter <= t.cached.value.refreshAfter
                && s.cached.value.hardExpiry == t.cached.value.hardExpiry))
  }

  lemma StepNeverEarlier(s: State, a: Action)
    requires Inv(s)
    ensures NeverEarlier(s, Step(s, a))
  {
    if a.Advance? && a.caller in s.calls {
      assert PcInv(s, a.caller, s.calls[a.caller]);
    }
  }

  /** The hold deadline never moves earlier over a run, although a throttled mint
      overwrites it without comparing; and while one token stays cached, its soft deadline
      never moves earlier and its hard one does not move. */
  lemma {:induction false} DeadlinesNeverMoveEarlier(now: Time, actions: seq<Action>, k: nat)
    requires k <= |actions|
    ensures NeverEarlier(Run(Init(now), actions[..k]), Run(Init(now), actions))
  {
    if k == |actions| {
      assert actions[..k] == actions;
    } else {
      var before := actions[..|actions| - 1];
      DeadlinesNeverMoveEarlier(now, before, k);
      assert before[..k] == actions[..k];
      ReachableInv(now, before);
      StepNeverEarlier(Run(Init(now), before), actions[|actions| - 1]);
    }
  }
}
