/** The send gate of `request_id`: API senders, credential mints and closers race on one
    mutex-guarded flag.

    An API sender takes the lock, asks, hands the request over and only then lets the lock
    go. A credential mint takes the lock only to ask. A closer sets the flag under the lock
    and returns afterwards. `is_open` is a condition outside the gate that may stop holding
    at any moment; `Reopen` makes it hold again, which the gate's contract forbids. */
module SendGate {
  import opened Basics

  type Id = nat

  datatype Kind = Api | Mint

  datatype Pc =
    | WantsSend(kind: Kind)
    | Asking(kind: Kind)      // holds the lock, has not asked yet
    | Holding                 // an API sender that found the gate open, lock held
    | MintAllowed             // a mint that found the gate open, lock dropped
    | WantsClose
    | Closing                 // holds the lock
    | Closed                  // flag set, lock dropped, not returned yet

  datatype Event =
    | FoundOpen(id: Id, kind: Kind)
    | HeldBack(id: Id, kind: Kind)
    | HandedOver(id: Id, kind: Kind)
    | CloseSet(id: Id)
    | CloseReturned(id: Id)

  datatype State = State(
    closed: bool,
    isOpen: bool,
    lock: Option<Id>,
    calls: map<Id, Pc>,
    seen: set<Id>,
    log: seq<Event>)

  datatype Action =
    | Send(id: Id, kind: Kind)
    | Close(id: Id)
    | Advance(id: Id)
    | StopHolding
    | Reopen

  const Init: State := State(false, true, None, map[], {}, [])

  function Goto(s: State, c: Id, pc: Pc): State { s.(calls := s.calls[c := pc]) }

  function Log(s: State, e: Event): State { s.(log := s.log + [e]) }

  function Unlock(s: State): State { s.(lock := None) }

  function Finish(s: State, c: Id): State { s.(calls := s.calls - {c}) }

  function Ask(s: State, c: Id, kind: Kind): State {
    if s.closed || !s.isOpen then Finish(Unlock(Log(s, HeldBack(c, kind))), c)
    else
      var t := Log(s, FoundOpen(c, kind));
      if kind.Api? then Goto(t, c, Holding) else Unlock(Goto(t, c, MintAllowed))
  }

  function AdvanceCall(s: State, c: Id): State
    requires c in s.calls
  {
    match s.calls[c]
    case WantsSend(kind) => if s.lock.None? then Goto(s, c, Asking(kind)).(lock := Some(c)) else s
    case Asking(kind) => Ask(s, c, kind)
    case Holding => Finish(Unlock(Log(s, HandedOver(c, Api))), c)
    case MintAllowed => Finish(Log(s, HandedOver(c, Mint)), c)
    case WantsClose => if s.lock.None? then Goto(s, c, Closing).(lock := Some(c)) else s
    case Closing => Unlock(Log(Goto(s, c, Closed), CloseSet(c))).(closed := true)
    case Closed => Finish(Log(s, CloseReturned(c)), c)
  }

  function Arrive(s: State, c: Id, pc: Pc): State {
    if c in s.seen then s else Goto(s, c, pc).(seen := s.seen + {c})
  }

  function Step(s: State, a: Action): State {
    match a
    case Send(c, kind) => Arrive(s, c, WantsSend(kind))
    case Close(c) => Arrive(s, c, WantsClose)
    case Advance(c) => if c in s.calls then AdvanceCall(s, c) else s
    case StopHolding => s.(isOpen := false)
    case Reopen => s.(isOpen := true)
  }

  function Run(actions: seq<Action>): State {
    if actions == [] then Init
    else Step(Run(actions[..|actions| - 1]), actions[|actions| - 1])
  }

  // ----- the inductive invariant

  predicate HoldsLock(pc: Pc) { pc.Asking? || pc.Holding? || pc.Closing? }

  ghost predicate LockInv(s: State) {
    && (forall c <- s.calls :: HoldsLock(s.calls[c]) ==> s.lock == Some(c))
    && (s.lock.Some? ==> s.lock.value in s.calls && HoldsLock(s.calls[s.lock.value]))
    && s.calls.Keys <= s.seen
  }

  /** The flag agrees with the history, and no sender that found the gate open is still
      holding once it is set. */
  ghost predicate FlagInv(s: State) {
    && (s.closed ==> forall c <- s.calls :: !s.calls[c].Holding?)
    && (forall c <- s.calls :: s.calls[c].Closed? ==> s.closed)
    && (forall e <- s.log :: e.CloseSet? || e.CloseReturned? ==> s.closed)
  }

  /** Event `k` of kind FoundOpen(Api) was followed by its hand-over. */
  ghost predicate HandedOverAfter(log: seq<Event>, k: nat)
    requires k < |log| && log[k].FoundOpen?
  {
    exists m :: k < m < |log| && log[m] == HandedOver(log[k].id, Api)
  }

  ghost predicate SendersInv(s: State) {
    forall k: nat :: k < |s.log| && s.log[k].FoundOpen? && s.log[k].kind.Api? ==>
      HandedOverAfter(s.log, k) || (s.log[k].id in s.calls && s.calls[s.log[k].id].Holding?)
  }

  /** A mint still to be handed over asked before the flag was set. */
  ghost predicate MintAskedOpen(log: seq<Event>, c: Id, before: nat)
    requires before <= |log|
  {
    exists k :: 0 <= k < before && log[k] == FoundOpen(c, Mint) && NoCloseBefore(log, k)
  }

  ghost predicate NoCloseBefore(log: seq<Event>, k: nat)
    requires k <= |log|
  {
    forall i :: 0 <= i < k ==> !log[i].CloseSet?
  }

  ghost predicate MintsInv(s: State) {
    && (forall c <- s.calls :: s.calls[c].MintAllowed? ==> MintAskedOpen(s.log, c, |s.log|))
    && (forall j: nat :: j < |s.log| && s.log[j].HandedOver? && s.log[j].kind.Mint? ==>
          MintAskedOpen(s.log, s.log[j].id, j))
  }

  /** Nothing is handed over by an API sender after a close returned, and every sender
      found open before a close returned had handed over by then. */
  ghost predicate CloseInv(log: seq<Event>) {
    && (forall i, j :: 0 <= i < j < |log| && log[i].CloseReturned? ==>
          !(log[j].HandedOver? && log[j].kind.Api?) && !log[j].FoundOpen?)
    && (forall i: nat, j: nat :: i < j < |log| && log[j].CloseReturned? && log[i].FoundOpen? && log[i].kind.Api? ==>
          HandedOverAfter(log[..j], i))
  }

  ghost predicate Inv(s: State) {
    LockInv(s) && FlagInv(s) && SendersInv(s) && MintsInv(s) && CloseInv(s.log)
  }

  lemma AppendKeepsHandovers(log: seq<Event>, e: Event, k: nat)
    requires k < |log| && log[k].FoundOpen?
    ensures HandedOverAfter(log, k) ==> HandedOverAfter(log + [e], k)
    ensures e == HandedOver(log[k].id, Api) ==> HandedOverAfter(log + [e], k)
  {
    if HandedOverAfter(log, k) {
      var m :| k < m < |log| && log[m] == HandedOver(log[k].id, Api);
      assert (log + [e])[m] == log[m];
    }
    if e == HandedOver(log[k].id, Api) {
      assert (log + [e])[|log|] == e;
    }
  }

  lemma AppendKeepsMintAsk(log: seq<Event>, e: Event, c: Id, before: nat)
    requires before <= |log| && MintAskedOpen(log, c, before)
    ensures forall n :: before <= n <= |log| + 1 ==> MintAskedOpen(log + [e], c, n)
  {
    var k :| 0 <= k < before && log[k] == FoundOpen(c, Mint) && NoCloseBefore(log, k);
    var log' := log + [e];
    assert log'[k] == log[k] && NoCloseBefore(log', k);
  }

  lemma AppendKeepsCloseInv(log: seq<Event>, e: Event)
    requires CloseInv(log)
    requires (e.HandedOver? && e.kind.Api?) || e.FoundOpen? ==> forall x <- log :: !x.CloseReturned?
    requires e.CloseReturned? ==>
      forall k: nat :: k < |log| && log[k].FoundOpen? && log[k].kind.Api? ==> HandedOverAfter(log, k)
    ensures CloseInv(log + [e])
  {
    var log' := log + [e];
    forall i: nat, j: nat | i < j < |log'| && log'[j].CloseReturned? && log'[i].FoundOpen? && log'[i].kind.Api?
      ensures HandedOverAfter(log'[..j], i)
    {
      if j == |log| {
        assert log'[..j] == log;
      } else {
        assert log'[..j] == log[..j];
      }
    }
  }

  lemma StepKeepsSenders(s: State, c: Id)
    requires Inv(s) && c in s.calls
    ensures SendersInv(AdvanceCall(s, c))
  {
    var t := AdvanceCall(s, c);
    forall k: nat | k < |t.log| && t.log[k].FoundOpen? && t.log[k].kind.Api?
      ensures HandedOverAfter(t.log, k) || (t.log[k].id in t.calls && t.calls[t.log[k].id].Holding?)
    {
      if k < |s.log| {
        assert t.log[k] == s.log[k];
        if t.log != s.log {
          AppendKeepsHandovers(s.log, t.log[|s.log|], k);
        }
      }
    }
  }

  lemma StepKeepsMints(s: State, c: Id)
    requires Inv(s) && c in s.calls
    ensures MintsInv(AdvanceCall(s, c))
  {
    var t := AdvanceCall(s, c);
    if t.log != s.log {
      var e := t.log[|s.log|];
      assert t.log == s.log + [e];
      forall d | d in t.calls && t.calls[d].MintAllowed? ensures MintAskedOpen(t.log, d, |t.log|) {
        if d in s.calls && s.calls[d].MintAllowed? {
          AppendKeepsMintAsk(s.log, e, d, |s.log|);
        } else {
          assert t.log[|s.log|] == FoundOpen(d, Mint) && NoCloseBefore(t.log, |s.log|);
        }
      }
      forall j: nat | j < |t.log| && t.log[j].HandedOver? && t.log[j].kind.Mint?
        ensures MintAskedOpen(t.log, t.log[j].id, j)
      {
        if j < |s.log| {
          assert t.log[j] == s.log[j];
          AppendKeepsMintAsk(s.log, e, t.log[j].id, j);
        } else {
          AppendKeepsMintAsk(s.log, e, c, |s.log|);
        }
      }
    }
  }

  lemma StepKeepsClose(s: State, c: Id)
    requires Inv(s) && c in s.calls
    ensures CloseInv(AdvanceCall(s, c).log)
  {
    var t := AdvanceCall(s, c);
    if t.log != s.log {
      AppendKeepsCloseInv(s.log, t.log[|s.log|]);
    }
  }

  lemma StepKeepsLockAndFlag(s: State, c: Id)
    requires LockInv(s) && FlagInv(s) && c in s.calls
    ensures LockInv(AdvanceCall(s, c)) && FlagInv(AdvanceCall(s, c))
  {
  }

  lemma ArriveKeepsInv(s: State, c: Id, pc: Pc)
    requires Inv(s) && (pc.WantsSend? || pc.WantsClose?)
    ensures Inv(Arrive(s, c, pc))
  {
  }

  lemma StepKeepsInv(s: State, a: Action)
    requires Inv(s)
    ensures Inv(Step(s, a))
  {
    match a {
      case Send(c, kind) => ArriveKeepsInv(s, c, WantsSend(kind));
      case Close(c) => ArriveKeepsInv(s, c, WantsClose);
      case Advance(c) =>
        if c in s.calls {
          StepKeepsLockAndFlag(s, c);
          StepKeepsSenders(s, c);
          StepKeepsMints(s, c);
          StepKeepsClose(s, c);
        }
      case StopHolding =>
      case Reopen =>
    }
  }

  lemma {:induction false} RunKeepsInv(actions: seq<Action>)
    ensures Inv(Run(actions))
  {
    if actions != [] {
      RunKeepsInv(actions[..|actions| - 1]);
      StepKeepsInv(Run(actions[..|actions| - 1]), actions[|actions| - 1]);
    }
  }

  // ----- what every run promises

  /** No API request is handed over after a close has returned. */
  lemma NothingLeavesAfterClose(actions: seq<Action>, i: nat, j: nat)
    requires var log := Run(actions).log; i < j < |log| && log[i].CloseReturned?
    ensures !(Run(actions).log[j].HandedOver? && Run(actions).log[j].kind.Api?)
    ensures !Run(actions).log[j].FoundOpen?
  {
    RunKeepsInv(actions);
  }

  /** A close returns only after every API sender that found the gate open has handed its
      request over. */
  lemma CloseWaitsForSenders(actions: seq<Action>, i: nat, j: nat)
    requires var log := Run(actions).log;
             i < j < |log| && log[i].FoundOpen? && log[i].kind.Api? && log[j].CloseReturned?
    ensures var log := Run(actions).log;
            exists m :: i < m < j && log[m] == HandedOver(log[i].id, Api)
  {
    RunKeepsInv(actions);
    var log := Run(actions).log;
    assert HandedOverAfter(log[..j], i);
    var m :| i < m < j && log[..j][m] == HandedOver(log[i].id, Api);
    assert log[m] == HandedOver(log[i].id, Api);
  }

  /** A credential mint asks under the lock but leaves after dropping it, so all that
      holds of it is that it asked before the first close took effect. */
  lemma MintsAskBeforeAnyClose(actions: seq<Action>, j: nat)
    requires var log := Run(actions).log; j < |log| && log[j].HandedOver? && log[j].kind.Mint?
    ensures var log := Run(actions).log;
            exists k: nat :: k < j && log[k] == FoundOpen(log[j].id, Mint) &&
                             forall i :: 0 <= i < k ==> !log[i].CloseSet?
  {
    RunKeepsInv(actions);
    var log := Run(actions).log;
    var k :| 0 <= k < j && log[k] == FoundOpen(log[j].id, Mint) && NoCloseBefore(log, k);
  }

  lemma Then(actions: seq<Action>, a: Action)
    ensures Run(actions + [a]) == Step(Run(actions), a)
  {
    assert (actions + [a])[..|actions|] == actions;
  }

  lemma AMintAsks() returns (a: seq<Action>)
    ensures Run(a) == State(false, true, None, map[0 := MintAllowed], {0}, [FoundOpen(0, Mint)])
  {
    var a1 := [] + [Send(0, Mint)];
    Then([], Send(0, Mint));
    Then(a1, Advance(0));
    Then(a1 + [Advance(0)], Advance(0));
    a := a1 + [Advance(0)] + [Advance(0)];
  }

  lemma ACloseTakesTheLock(a: seq<Action>) returns (b: seq<Action>)
    requires Run(a) == State(false, true, None, map[0 := MintAllowed], {0}, [FoundOpen(0, Mint)])
    ensures Run(b) == State(false, true, Some(1), map[0 := MintAllowed, 1 := Closing], {0, 1}, [FoundOpen(0, Mint)])
  {
    var a1 := a + [Close(1)];
    Then(a, Close(1));
    assert Run(a1) == Run(a).(calls := map[0 := MintAllowed, 1 := WantsClose], seen := {0, 1});
    Then(a1, Advance(1));
    b := a1 + [Advance(1)];
  }

  lemma AClosePasses(a: seq<Action>) returns (b: seq<Action>)
    requires Run(a) == State(false, true, Some(1), map[0 := MintAllowed, 1 := Closing], {0, 1}, [FoundOpen(0, Mint)])
    ensures Run(b) == State(true, true, None, map[0 := MintAllowed], {0, 1},
                            [FoundOpen(0, Mint), CloseSet(1), CloseReturned(1)])
  {
    var a1 := a + [Advance(1)];
    Then(a, Advance(1));
    assert Run(a1) == State(true, true, None, map[0 := MintAllowed, 1 := Closed], {0, 1},
                            [FoundOpen(0, Mint), CloseSet(1)]);
    Then(a1, Advance(1));
    b := a1 + [Advance(1)];
  }

  /** A mint's request can leave after a close has returned: the promise made for API
      requests is not one the gate keeps for mints. */
  lemma MintCanLeaveAfterClose()
    ensures exists actions, i, j ::
              var log := Run(actions).log;
              0 <= i < j < |log| && log[i].CloseReturned? && log[j] == HandedOver(0, Mint)
  {
    var a := AMintAsks();
    var closing := ACloseTakesTheLock(a);
    var b := AClosePasses(closing);
    Then(b, Advance(0));
    var log := Run(b + [Advance(0)]).log;
    assert log[2] == CloseReturned(1) && log[3] == HandedOver(0, Mint);
  }

  /** A mint handed over at or after position `from` of the run's history. */
  ghost predicate MintLeaves(actions: seq<Action>, from: nat) {
    exists j :: from <= j < |Run(actions).log| && Run(actions).log[j].HandedOver? && Run(actions).log[j].kind.Mint?
  }

  ghost predicate MintPending(s: State) {
    exists c :: c in s.calls && s.calls[c].MintAllowed?
  }

  lemma QuietStep(s: State, a: Action)
    requires s.closed && !MintPending(s)
    ensures var t := Step(s, a);
            && t.closed && !MintPending(t) && s.log <= t.log
            && forall j :: |s.log| <= j < |t.log| ==> !(t.log[j].HandedOver? && t.log[j].kind.Mint?)
  {
    assert a.Advance? && a.id in s.calls ==> !s.calls[a.id].MintAllowed?;
  }

  lemma {:induction false} ClosedAndQuietStaysQuiet(actions: seq<Action>, more: seq<Action>)
    requires Run(actions).closed && !MintPending(Run(actions))
    ensures var s := Run(actions + more);
            s.closed && !MintPending(s) && Run(actions).log <= s.log
    ensures !MintLeaves(actions + more, |Run(actions).log|)
  {
    if more == [] {
      assert actions + more == actions;
    } else {
      var before := more[..|more| - 1];
      var last := more[|more| - 1];
      ClosedAndQuietStaysQuiet(actions, before);
      var s := Run(actions + before);
      assert actions + more == (actions + before) + [last];
      Then(actions + before, last);
      QuietStep(s, last);
      var log := Run(actions + more).log;
      forall j | |Run(actions).log| <= j < |log| ensures !(log[j].HandedOver? && log[j].kind.Mint?) {
        assert j < |s.log| ==> log[j] == s.log[j];
      }
    }
  }

  /** Exactly when a mint can still leave once the flag is set: some mint has asked and
      not left yet. A close with no such mint outstanding stops mints too. */
  lemma MintLeavesAfterCloseIffOnePending(actions: seq<Action>)
    requires Run(actions).closed
    ensures (exists more :: MintLeaves(actions + more, |Run(actions).log|)) <==> MintPending(Run(actions))
  {
    var s := Run(actions);
    if MintPending(s) {
      var c :| c in s.calls && s.calls[c].MintAllowed?;
      Then(actions, Advance(c));
      assert Run(actions + [Advance(c)]).log[|s.log|] == HandedOver(c, Mint);
      assert MintLeaves(actions + [Advance(c)], |s.log|);
    } else {
      forall more ensures !MintLeaves(actions + more, |s.log|) {
        ClosedAndQuietStaysQuiet(actions, more);
      }
    }
  }

  predicate Shut(s: State) { s.closed || !s.isOpen }

  lemma ShutStep(s: State, a: Action)
    requires a != Reopen
    ensures var t := Step(s, a);
            && s.log <= t.log
            && (Shut(s) ==> Shut(t) && forall j :: |s.log| <= j < |t.log| ==> !t.log[j].FoundOpen?)
            && (forall j :: |s.log| <= j < |t.log| && t.log[j].HeldBack? ==> Shut(t))
            && |t.log| <= |s.log| + 1
  {
  }

  lemma {:induction false} RefusedStaysShut(actions: seq<Action>, i: nat)
    requires Reopen !in actions
    requires i < |Run(actions).log| && Run(actions).log[i].HeldBack?
    ensures Shut(Run(actions))
  {
    var before := actions[..|actions| - 1];
    ShutStep(Run(before), actions[|actions| - 1]);
    if i < |Run(before).log| {
      RefusedStaysShut(before, i);
    }
  }

  /** Once one ask was refused every later ask is refused, when `is_open` never answers true
      again, so a request held back is held back for good. */
  lemma {:induction false} RefusalIsFinal(actions: seq<Action>, i: nat, j: nat)
    requires Reopen !in actions
    requires var log := Run(actions).log; i < j < |log| && log[i].HeldBack?
    ensures !Run(actions).log[j].FoundOpen?
  {
    var before := actions[..|actions| - 1];
    ShutStep(Run(before), actions[|actions| - 1]);
    RefusedStaysShut(before, i);
    if j < |Run(before).log| {
      RefusalIsFinal(before, i, j);
    }
  }

  lemma ARefusedAsk() returns (a: seq<Action>)
    ensures Run(a) == State(false, false, None, map[], {0}, [HeldBack(0, Api)])
  {
    var a1 := [] + [StopHolding];
    Then([], StopHolding);
    Then(a1, Send(0, Api));
    Then(a1 + [Send(0, Api)], Advance(0));
    var a2 := a1 + [Send(0, Api)] + [Advance(0)];
    assert Run(a2) == State(false, false, Some(0), map[0 := Asking(Api)], {0}, []);
    Then(a2, Advance(0));
    a := a2 + [Advance(0)];
  }

  /** Without that contract a refused ask can be followed by an accepted one. */
  lemma ReopenedGateAcceptsAgain()
    ensures exists actions, i, j ::
              var log := Run(actions).log;
              0 <= i < j < |log| && log[i].HeldBack? && log[j].FoundOpen?
  {
    var a := ARefusedAsk();
    var a1 := a + [Reopen];
    Then(a, Reopen);
    var a2 := a1 + [Send(1, Api)];
    Then(a1, Send(1, Api));
    assert Run(a2) == State(false, true, None, map[1 := WantsSend(Api)], {0, 1}, [HeldBack(0, Api)]);
    var a3 := a2 + [Advance(1)];
    Then(a2, Advance(1));
    Then(a3, Advance(1));
    var log := Run(a3 + [Advance(1)]).log;
    assert log[0] == HeldBack(0, Api) && log[1] == FoundOpen(1, Api);
  }
}
