/** What the runs of a block watcher record. It skips a transaction whose hash an entry already
    carries, and entries of others, mints and outgoing transfers, carry hashes of the same chain:
    so a matching transaction is recorded exactly when it was read while no such entry held its
    hash. */
module ScanRecords {
  import opened Basics
  import opened ChainScan
  import opened ScanRuns
  import opened ScanTotals

  /** The match of transaction `k`. */
  ghost function MatchOf(w: World, k: nat): Option<(string, nat)>
    requires k < |Txs(w)|
  {
    FirstMatch(w.filter, Txs(w)[k].logs)
  }

  /** The entry a scan records for a matching transaction. */
  ghost function EntryOf(w: World, k: nat): Entry
    requires k < |Txs(w)| && MatchOf(w, k).Some?
  {
    Found(Txs(w)[k].hash, MatchOf(w, k).value.0, MatchOf(w, k).value.1)
  }

  ghost predicate HasFound(entries: seq<Entry>, hash: Hash) { exists e <- entries :: e.Found? && e.hash == hash }

  ghost predicate HeldByOthers(entries: seq<Entry>, hash: Hash) { exists e <- entries :: e.Foreign? && e.hash == hash }

  /** The next step of the pass under way reads transaction `k`. */
  predicate Reads(w: World, s: Watch, k: nat) {
    && s.pass.Some? && s.pass.value.next == k && k < |Txs(w)|
    && w.start <= s.pass.value.to <= |w.chain| && k < Boundary(w, s.pass.value.to)
  }

  lemma ReadingStep(w: World, s: Watch, k: nat)
    requires Reads(w, s, k)
    ensures var t := Step(w, s, ScanNext);
            && t.reach == Max(s.reach, k + 1)
            && t.entries == if MatchOf(w, k).None? || Known(s.entries, Txs(w)[k].hash) then s.entries
                            else s.entries + [EntryOf(w, k)]
  {
    ScanLogsRecordsFirstMatch(w.filter, s.entries, Txs(w)[k].hash, Txs(w)[k].logs);
  }

  lemma HashesNameTxs(w: World, m: nat, k: nat)
    requires Sane(w) && m < |Txs(w)| && k < |Txs(w)|
    ensures Txs(w)[m].hash == Txs(w)[k].hash <==> m == k
  {
  }

  lemma KnownSplits(entries: seq<Entry>, hash: Hash)
    ensures Known(entries, hash) <==> HasFound(entries, hash) || HeldByOthers(entries, hash)
  {
  }

  /** Every other step leaves the watcher's entries and its reach alone. */
  lemma OtherStep(w: World, s: Watch, a: Action)
    requires a.ScanNext? ==> forall k :: !Reads(w, s, k)
    ensures var t := Step(w, s, a); FoundOnly(t.entries) == FoundOnly(s.entries) && t.reach == s.reach
  {
    match a {
      case ScanNext => if s.pass.Some? { assert !Reads(w, s, s.pass.value.next); }
      case AddForeign(hash) => FoundOnlyAppend(s.entries, Foreign(hash));
      case Rehash(i, hash) =>
        if i < |s.entries| && s.entries[i].Foreign? { FoundOnlyIgnoresForeign(s.entries, i, hash); }
      case _ =>
    }
  }

  lemma HasFoundIsFoundOnly(entries: seq<Entry>, hash: Hash)
    ensures HasFound(entries, hash) <==> exists e <- FoundOnly(entries) :: e.hash == hash
  {
    FoundOnlyKeepsMembers(entries);
  }

  // ----- one transaction: recorded exactly when read clean

  /** The j-th action reads transaction `k` while no entry of others holds its hash. */
  ghost predicate ReadsClean(w: World, s: Watch, actions: seq<Action>, j: nat, k: nat)
    requires j < |actions| && k < |Txs(w)|
  {
    var u := Run(w, s, actions[..j]);
    actions[j].ScanNext? && Reads(w, u, k) && !HeldByOthers(u.entries, Txs(w)[k].hash)
  }

  ghost predicate ReadClean(w: World, s: Watch, actions: seq<Action>, k: nat)
    requires k < |Txs(w)|
  {
    exists j :: 0 <= j < |actions| && ReadsClean(w, s, actions, j, k)
  }

  lemma ReadCleanSnoc(w: World, s: Watch, actions: seq<Action>, k: nat)
    requires actions != [] && k < |Txs(w)|
    ensures var n := |actions| - 1;
            ReadClean(w, s, actions, k) <==> ReadClean(w, s, actions[..n], k) || ReadsClean(w, s, actions, n, k)
  {
    var front := actions[..|actions| - 1];
    forall j | 0 <= j < |front| ensures ReadsClean(w, s, front, j, k) <==> ReadsClean(w, s, actions, j, k) {
      assert front[..j] == actions[..j];
    }
    if ReadClean(w, s, front, k) {
      var j :| 0 <= j < |front| && ReadsClean(w, s, front, j, k);
      assert ReadsClean(w, s, actions, j, k);
    }
  }

  /** One step records transaction `k` exactly when it reads it clean and it matches. */
  lemma RecordingStep(w: World, s: Watch, a: Action, k: nat)
    requires Sane(w) && k < |Txs(w)|
    ensures var hash := Txs(w)[k].hash;
            HasFound(Step(w, s, a).entries, hash) <==>
              || HasFound(s.entries, hash)
              || (a.ScanNext? && Reads(w, s, k) && MatchOf(w, k).Some? && !HeldByOthers(s.entries, hash))
  {
    var hash := Txs(w)[k].hash;
    if a.ScanNext? && s.pass.Some? && Reads(w, s, s.pass.value.next) {
      var read := s.pass.value.next;
      ReadingStep(w, s, read);
      KnownSplits(s.entries, Txs(w)[read].hash);
      HashesNameTxs(w, read, k);
    } else {
      OtherStep(w, s, a);
      HasFoundIsFoundOnly(s.entries, hash);
      HasFoundIsFoundOnly(Step(w, s, a).entries, hash);
    }
  }

  /** A transaction of the chain is recorded exactly when it matches and some pass read it while
      no entry of others held its hash, whatever failed or was rescanned. */
  lemma {:induction false} RecordedIffReadClean(w: World, entries: seq<Entry>, usdc: real, actions: seq<Action>, k: nat)
    requires Sane(w) && k < |Txs(w)| && forall e <- entries :: e.Foreign?
    ensures var s := Init(w, entries, usdc);
            HasFound(Run(w, s, actions).entries, Txs(w)[k].hash) <==>
              MatchOf(w, k).Some? && ReadClean(w, s, actions, k)
  {
    var s := Init(w, entries, usdc);
    if actions != [] {
      var front, last := actions[..|actions| - 1], actions[|actions| - 1];
      RecordedIffReadClean(w, entries, usdc, front, k);
      ReadCleanSnoc(w, s, actions, k);
      RecordingStep(w, Run(w, s, front), last, k);
    }
  }

  // ----- all transactions: the recorded entries against a failure-free scan

  /** The watcher's entries are entries of transactions it has read, no two of one. */
  ghost predicate Sound(w: World, s: Watch) {
    && s.reach <= |Txs(w)|
    && (forall e <- FoundOnly(s.entries) :: IsEntryBelow(w, e, s.reach))
    && DistinctHashes(FoundOnly(s.entries))
  }

  ghost predicate IsEntryBelow(w: World, e: Entry, n: nat)
    requires n <= |Txs(w)|
  {
    exists k: nat :: k < n && MatchOf(w, k).Some? && e == EntryOf(w, k)
  }

  ghost predicate DistinctHashes(entries: seq<Entry>) {
    forall i, j :: 0 <= i < j < |entries| ==> entries[i].hash != entries[j].hash
  }

  lemma ReadingKeepsSound(w: World, s: Watch, k: nat)
    requires Bounds(w, s) && Sound(w, s) && Reads(w, s, k)
    ensures Sound(w, Step(w, s, ScanNext))
  {
    var t := Step(w, s, ScanNext);
    ReadingStep(w, s, k);
    forall e | e in FoundOnly(s.entries) ensures IsEntryBelow(w, e, t.reach) {
      assert IsEntryBelow(w, e, s.reach);
    }
    if t.entries != s.entries {
      FoundOnlyAppend(s.entries, EntryOf(w, k));
      assert IsEntryBelow(w, EntryOf(w, k), t.reach);
      FoundOnlyKeepsMembers(s.entries);
      assert forall e <- FoundOnly(s.entries) :: e in s.entries && e.hash != Txs(w)[k].hash;
    }
  }

  lemma {:induction false} RunKeepsSound(w: World, entries: seq<Entry>, usdc: real, actions: seq<Action>)
    requires Sane(w) && forall e <- entries :: e.Foreign?
    ensures Sound(w, Run(w, Init(w, entries, usdc), actions))
  {
    if actions == [] {
      NoneFoundYet(entries);
    } else {
      var front, last := actions[..|actions| - 1], actions[|actions| - 1];
      var s := Run(w, Init(w, entries, usdc), front);
      RunKeepsSound(w, entries, usdc, front);
      RunKeepsBounds(w, entries, usdc, front);
      if last.ScanNext? && s.pass.Some? && Reads(w, s, s.pass.value.next) {
        ReadingKeepsSound(w, s, s.pass.value.next);
      } else {
        OtherStep(w, s, last);
      }
    }
  }

  lemma OneMoreBelow(w: World, e: Entry, n: nat)
    requires n < |Txs(w)|
    ensures IsEntryBelow(w, e, n + 1) <==> IsEntryBelow(w, e, n) || (MatchOf(w, n).Some? && e == EntryOf(w, n))
  {
    if IsEntryBelow(w, e, n) {
      var k: nat :| k < n && MatchOf(w, k).Some? && e == EntryOf(w, k);
      assert k < n + 1;
    }
  }

  lemma {:induction false} ExpectedIsEntriesBelow(w: World, n: nat, e: Entry)
    requires n <= |Txs(w)|
    ensures e in Expected(w.filter, Txs(w)[..n]) <==> IsEntryBelow(w, e, n)
  {
    if n > 0 {
      ExpectedIsEntriesBelow(w, n - 1, e);
      ExpectedGrows(w.filter, Txs(w), n - 1);
      OneMoreBelow(w, e, n - 1);
    }
  }

  lemma {:induction false} CountOfDistinct(a: seq<Entry>, e: Entry)
    requires DistinctHashes(a)
    ensures multiset(a)[e] == if e in a then 1 else 0
  {
    if a != [] {
      var n := |a| - 1;
      CountOfDistinct(a[..n], e);
      assert a == a[..n] + [a[n]];
      assert a[n] !in a[..n];
    }
  }

  /** Of two lists without repetitions, the smaller is the whole exactly when it misses nothing. */
  lemma SameWhenNothingIsMissing(a: seq<Entry>, b: seq<Entry>)
    requires DistinctHashes(a) && DistinctHashes(b) && forall e <- a :: e in b
    ensures multiset(a) == multiset(b) <==> forall e <- b :: e in a
  {
    forall e ensures multiset(a)[e] == (if e in a then 1 else 0) && multiset(b)[e] == if e in b then 1 else 0 {
      CountOfDistinct(a, e);
      CountOfDistinct(b, e);
    }
    if multiset(a) == multiset(b) {
      forall e | e in b ensures e in a { assert multiset(a)[e] == 1; }
    }
  }

  ghost predicate AllReadClean(w: World, s: Watch, actions: seq<Action>, n: nat)
    requires n <= |Txs(w)|
  {
    forall k: nat :: k < n && MatchOf(w, k).Some? ==> ReadClean(w, s, actions, k)
  }

  lemma FoundEntry(w: World, s: Watch, k: nat)
    requires Sane(w) && Sound(w, s) && k < |Txs(w)| && MatchOf(w, k).Some?
    ensures HasFound(s.entries, Txs(w)[k].hash) <==> EntryOf(w, k) in FoundOnly(s.entries)
  {
    HasFoundIsFoundOnly(s.entries, Txs(w)[k].hash);
    if HasFound(s.entries, Txs(w)[k].hash) {
      var e :| e in FoundOnly(s.entries) && e.hash == Txs(w)[k].hash;
      assert IsEntryBelow(w, e, s.reach);
      var m: nat :| m < s.reach && MatchOf(w, m).Some? && e == EntryOf(w, m);
      HashesNameTxs(w, m, k);
    }
  }

  /** In every reachable state the watcher's entries are among those of one failure-free scan of
      the transactions it has reached, which are at least those of the blocks some pass has
      finished, and none is there twice. They are all of them if and only if each
      matching one was read at some time while no entry of others held its hash. */
  lemma EntriesAreAScanIff(w: World, entries: seq<Entry>, usdc: real, actions: seq<Action>)
    requires Sane(w) && forall e <- entries :: e.Foreign?
    ensures var s := Run(w, Init(w, entries, usdc), actions);
            && w.start <= s.last <= |w.chain| && |TxsOf(w.chain, w.start, s.last)| <= s.reach <= |Txs(w)|
            && DistinctHashes(FoundOnly(s.entries))
            && (forall e <- FoundOnly(s.entries) :: e in Expected(w.filter, Txs(w)[..s.reach]))
            && (multiset(FoundOnly(s.entries)) == multiset(Expected(w.filter, Txs(w)[..s.reach])) <==>
                  AllReadClean(w, Init(w, entries, usdc), actions, s.reach))
  {
    var init := Init(w, entries, usdc);
    var s := Run(w, init, actions);
    RunKeepsBounds(w, entries, usdc, actions);
    RunKeepsSound(w, entries, usdc, actions);
    var found, all := FoundOnly(s.entries), Expected(w.filter, Txs(w)[..s.reach]);
    forall e ensures e in all <==> IsEntryBelow(w, e, s.reach) {
      ExpectedIsEntriesBelow(w, s.reach, e);
    }
    ExpectedHashesAreDistinct(w.filter, Txs(w)[..s.reach]);
    SameWhenNothingIsMissing(found, all);
    forall k: nat | k < s.reach && MatchOf(w, k).Some?
      ensures EntryOf(w, k) in found <==> ReadClean(w, init, actions, k)
      ensures EntryOf(w, k) in all
    {
      FoundEntry(w, s, k);
      RecordedIffReadClean(w, entries, usdc, actions, k);
      assert IsEntryBelow(w, EntryOf(w, k), s.reach);
    }
    if AllReadClean(w, init, actions, s.reach) {
      forall e | e in all ensures e in found {
        var k: nat :| k < s.reach && MatchOf(w, k).Some? && e == EntryOf(w, k);
        assert ReadClean(w, init, actions, k);
      }
    }
  }

  // ----- in order, at every moment

  /** The entries are those of a failure-free scan up to here, in chain order. */
  ghost predicate InOrder(w: World, s: Watch) {
    s.reach <= |Txs(w)| && FoundOnly(s.entries) == Expected(w.filter, Txs(w)[..s.reach])
  }

  /** Action `a` reads a matching transaction for the first time, and an entry of others holds
      its hash. */
  ghost predicate Hides(w: World, s: Watch, a: Action) {
    && a.ScanNext? && Reads(w, s, s.reach)
    && MatchOf(w, s.reach).Some? && HeldByOthers(s.entries, Txs(w)[s.reach].hash)
  }

  /** A transaction of the chain is recorded exactly when it was reached and matches. */
  lemma FoundIffReached(w: World, s: Watch, k: nat)
    requires Sane(w) && InOrder(w, s) && k < |Txs(w)|
    ensures HasFound(s.entries, Txs(w)[k].hash) <==> k < s.reach && MatchOf(w, k).Some?
  {
    var hash := Txs(w)[k].hash;
    HasFoundIsFoundOnly(s.entries, hash);
    if HasFound(s.entries, hash) {
      var e :| e in FoundOnly(s.entries) && e.hash == hash;
      ExpectedIsEntriesBelow(w, s.reach, e);
      var m: nat :| m < s.reach && MatchOf(w, m).Some? && e == EntryOf(w, m);
      HashesNameTxs(w, m, k);
    }
    if k < s.reach && MatchOf(w, k).Some? {
      assert IsEntryBelow(w, EntryOf(w, k), s.reach);
      ExpectedIsEntriesBelow(w, s.reach, EntryOf(w, k));
    }
  }

  lemma ReadingOrder(w: World, s: Watch, k: nat)
    requires Bounds(w, s) && InOrder(w, s) && Reads(w, s, k)
    ensures InOrder(w, Step(w, s, ScanNext)) <==> !Hides(w, s, ScanNext)
  {
    var hash := Txs(w)[k].hash;
    ReadingStep(w, s, k);
    FoundIffReached(w, s, k);
    KnownSplits(s.entries, hash);
    if k == s.reach {
      ExpectedGrows(w.filter, Txs(w), k);
      if MatchOf(w, k).Some? { FoundOnlyAppend(s.entries, EntryOf(w, k)); }
    }
  }

  lemma StepOrder(w: World, s: Watch, a: Action)
    requires Bounds(w, s) && InOrder(w, s)
    ensures InOrder(w, Step(w, s, a)) <==> !Hides(w, s, a)
  {
    if a.ScanNext? && s.pass.Some? && Reads(w, s, s.pass.value.next) {
      ReadingOrder(w, s, s.pass.value.next);
    } else {
      OtherStep(w, s, a);
    }
  }

  /** The j-th action of a run hides a transaction. */
  ghost predicate HidesAt(w: World, s: Watch, actions: seq<Action>, j: nat)
    requires j < |actions|
  {
    Hides(w, Run(w, s, actions[..j]), actions[j])
  }

  ghost predicate NothingHidden(w: World, s: Watch, actions: seq<Action>) {
    forall j :: 0 <= j < |actions| ==> !HidesAt(w, s, actions, j)
  }

  lemma {:induction false} InOrderIfNothingHidden(w: World, entries: seq<Entry>, usdc: real, actions: seq<Action>)
    requires Sane(w) && forall e <- entries :: e.Foreign?
    requires NothingHidden(w, Init(w, entries, usdc), actions)
    ensures InOrder(w, Run(w, Init(w, entries, usdc), actions))
  {
    var s := Init(w, entries, usdc);
    if actions == [] {
      NoneFoundYet(entries);
      assert Txs(w)[..0] == [];
    } else {
      var n := |actions| - 1;
      var front := actions[..n];
      forall j | 0 <= j < n ensures !HidesAt(w, s, front, j) {
        assert front[..j] == actions[..j] && !HidesAt(w, s, actions, j);
      }
      InOrderIfNothingHidden(w, entries, usdc, front);
      RunKeepsBounds(w, entries, usdc, front);
      assert !HidesAt(w, s, actions, n);
      StepOrder(w, Run(w, s, front), actions[n]);
    }
  }

  /** The watcher's entries are, at every moment of a run, those of one failure-free scan in chain
      order if and only if no matching transaction was first read while an entry of others held
      its hash. */
  lemma InOrderThroughoutIff(w: World, entries: seq<Entry>, usdc: real, actions: seq<Action>)
    requires Sane(w) && forall e <- entries :: e.Foreign?
    ensures var s := Init(w, entries, usdc);
            (forall n :: 0 <= n <= |actions| ==> InOrder(w, Run(w, s, actions[..n]))) <==> NothingHidden(w, s, actions)
  {
    var s := Init(w, entries, usdc);
    if forall n :: 0 <= n <= |actions| ==> InOrder(w, Run(w, s, actions[..n])) {
      forall j | 0 <= j < |actions| ensures !HidesAt(w, s, actions, j) {
        RunKeepsBounds(w, entries, usdc, actions[..j]);
        StepOrder(w, Run(w, s, actions[..j]), actions[j]);
        assert actions[..j + 1] == actions[..j] + [actions[j]];
        RunThen(w, s, actions[..j], actions[j]);
        assert InOrder(w, Run(w, s, actions[..j + 1]));
      }
    }
    if NothingHidden(w, s, actions) {
      forall n | 0 <= n <= |actions| ensures InOrder(w, Run(w, s, actions[..n])) {
        var front := actions[..n];
        forall j | 0 <= j < n ensures !HidesAt(w, s, front, j) {
          assert front[..j] == actions[..j] && !HidesAt(w, s, actions, j);
        }
        InOrderIfNothingHidden(w, entries, usdc, front);
      }
    }
  }

  // ----- a finished range

  lemma FinishedReach(w: World, s: Watch)
    requires Bounds(w, s) && s.last == s.head
    ensures Txs(w)[..s.reach] == TxsOf(w.chain, w.start, s.last)
  {
    BoundaryMonotone(w, s.last, s.last);
  }

  /** Once a pass has finished the highest block any pass aimed at: the entries are those of one
      failure-free scan of the whole range if and only if each matching transaction of it was
      read at some time while no entry of others held its hash, and then the wallet has gained
      exactly their total; they are in chain order when none was hidden at its first read. */
  lemma SuccessfulScanIsComplete(w: World, entries: seq<Entry>, usdc: real, actions: seq<Action>)
    requires Sane(w) && forall e <- entries :: e.Foreign?
    requires var s := Run(w, Init(w, entries, usdc), actions); s.last == s.head
    ensures var init := Init(w, entries, usdc);
            var s := Run(w, init, actions);
            && w.start <= s.last <= |w.chain|
            && var txs := TxsOf(w.chain, w.start, s.last);
               var whole := multiset(FoundOnly(s.entries)) == multiset(Expected(w.filter, txs));
               && |txs| <= |Txs(w)|
               && (whole <==> AllReadClean(w, init, actions, |txs|))
               && (whole && w.filter.Deposits? ==> s.usdc == usdc + TotalRecorded(w.filter, txs) as real / 1000000.0)
               && (NothingHidden(w, init, actions) ==> FoundOnly(s.entries) == Expected(w.filter, txs))
  {
    var s := Run(w, Init(w, entries, usdc), actions);
    RunKeepsBounds(w, entries, usdc, actions);
    FinishedReach(w, s);
    EntriesAreAScanIff(w, entries, usdc, actions);
    var txs := TxsOf(w.chain, w.start, s.last);
    if multiset(FoundOnly(s.entries)) == multiset(Expected(w.filter, txs)) {
      ValueOfPermutation(FoundOnly(s.entries), Expected(w.filter, txs));
      ValueOfFound(s.entries);
      RecordedValueOfExpected(w.filter, txs);
      WalletIsStartPlusRecorded(w, entries, usdc, actions);
    }
    if NothingHidden(w, Init(w, entries, usdc), actions) {
      InOrderIfNothingHidden(w, entries, usdc, actions);
    }
  }

  // ----- when others do no harm, and when they do

  /** The hash of no matching transaction of the watched chain. */
  ghost predicate Harmless(w: World, hash: Hash) {
    forall tx <- Txs(w) :: tx.hash == hash ==> FirstMatch(w.filter, tx.logs).None?
  }

  ghost predicate AllHarmless(w: World, entries: seq<Entry>) {
    forall e <- entries :: e.Foreign? ==> Harmless(w, e.hash)
  }

  lemma StepStaysHarmless(w: World, s: Watch, a: Action)
    requires AllHarmless(w, s.entries) && (a.AddForeign? || a.Rehash? ==> Harmless(w, a.hash))
    ensures AllHarmless(w, Step(w, s, a).entries)
  {
    if a.ScanNext? && s.pass.Some? && Reads(w, s, s.pass.value.next) {
      ReadingStep(w, s, s.pass.value.next);
    }
  }

  lemma {:induction false} RunStaysHarmless(w: World, s: Watch, actions: seq<Action>)
    requires AllHarmless(w, s.entries)
    requires forall a <- actions :: a.AddForeign? || a.Rehash? ==> Harmless(w, a.hash)
    ensures AllHarmless(w, Run(w, s, actions).entries)
  {
    if actions != [] {
      var front, last := actions[..|actions| - 1], actions[|actions| - 1];
      assert actions == front + [last] && last in actions;
      RunStaysHarmless(w, s, front);
      StepStaysHarmless(w, Run(w, s, front), last);
    }
  }

  /** Nothing is hidden when mints and outgoing transfers only carry hashes of transactions that
      do not match, as those of mints to other wallets. */
  lemma HarmlessHashesHideNothing(w: World, entries: seq<Entry>, usdc: real, actions: seq<Action>)
    requires AllHarmless(w, entries)
    requires forall a <- actions :: a.AddForeign? || a.Rehash? ==> Harmless(w, a.hash)
    ensures NothingHidden(w, Init(w, entries, usdc), actions)
  {
    var s := Init(w, entries, usdc);
    forall j | 0 <= j < |actions| ensures !HidesAt(w, s, actions, j) {
      assert forall a <- actions[..j] :: a in actions;
      RunStaysHarmless(w, s, actions[..j]);
      HarmlessHidesNothing(w, Run(w, s, actions[..j]), actions[j]);
    }
  }

  lemma HarmlessHidesNothing(w: World, s: Watch, a: Action)
    requires AllHarmless(w, s.entries)
    ensures !Hides(w, s, a)
  {
    if Reads(w, s, s.reach) {
      assert Txs(w)[s.reach] in Txs(w);
    }
  }

  /** A chain with one transfer to the redemption wallet. */
  const WALLET_MINT: World :=
    World([[Tx("0x1", [Log(1, [TRANSFER, 9, 7], 5, true)])]], 0, Redemptions(7, map[1 := "AAPL"]))

  lemma OneTxChain(w: World, tx: Tx)
    requires w.chain == [[tx]] && w.start == 0
    ensures TxsOf(w.chain, 0, 1) == [tx] && Txs(w) == [tx] && Boundary(w, 0) == 0 && Boundary(w, 1) == 1
  {
    assert TxsOf(w.chain, 0, 1) == TxsOf(w.chain, 0, 0) + w.chain[0];
  }

  lemma OneLog(f: Filter, tx: Tx, l: Log)
    requires tx.logs == [l]
    ensures FirstMatch(f, tx.logs) == Match(f, l)
    ensures Match(f, l).Some? ==> Expected(f, [tx]) == [Found(tx.hash, Match(f, l).value.0, Match(f, l).value.1)]
  {
    assert FirstMatch(f, [l][..0]) == None;
    assert Expected(f, [tx][..0]) == [];
  }

  lemma WalletMintMatches()
    ensures var w, tx := WALLET_MINT, Tx("0x1", [Log(1, [TRANSFER, 9, 7], 5, true)]);
            && TxsOf(w.chain, 0, 1) == [tx] && Txs(w) == [tx] && Boundary(w, 0) == 0 && Boundary(w, 1) == 1
            && FirstMatch(w.filter, tx.logs) == Some(("AAPL", 5))
            && Expected(w.filter, [tx]) == [Found("0x1", "AAPL", 5)]
  {
    var l := Log(1, [TRANSFER, 9, 7], 5, true);
    OneTxChain(WALLET_MINT, Tx("0x1", [l]));
    OneLog(WALLET_MINT.filter, Tx("0x1", [l]), l);
  }

  /** The executor posts a mint and stores the hash of its transaction. */
  lemma MintIsStored(usdc: real)
    ensures var s := Init(WALLET_MINT, [], usdc);
            Run(WALLET_MINT, s, [AddForeign("")] + [Rehash(0, "0x1")]) == s.(entries := [Foreign("0x1")])
  {
    var s := Init(WALLET_MINT, [], usdc);
    assert [] + [AddForeign("")] == [AddForeign("")];
    RunThen(WALLET_MINT, s, [], AddForeign(""));
    RunThen(WALLET_MINT, s, [AddForeign("")], Rehash(0, "0x1"));
  }

  /** The pass then skips the transaction, because an entry holds its hash. */
  lemma StoredMintIsSkipped(s: Watch)
    requires s.entries == [Foreign("0x1")] && s.pass.None? && s.last == 0 && s.head == 0 && s.reach == 0
    ensures var w := WALLET_MINT;
            var t := Step(w, Step(w, Step(w, s, StartPass(1)), ScanNext), ScanNext);
            t.last == t.head == 1 && t.entries == [Foreign("0x1")]
  {
    var w := WALLET_MINT;
    WalletMintMatches();
    var started := Step(w, s, StartPass(1));
    assert started == s.(pass := Some(Pass(1, 0)), head := 1);
    assert Known(started.entries, "0x1") by { assert started.entries[0].hash == "0x1"; }
    ReadingStep(w, started, 0);
    assert Step(w, started, ScanNext).pass == Some(Pass(1, 1));
  }

  /** A mint to the redemption wallet itself is a transfer the watcher should record. When the
      executor stores its hash first, the finished scan has recorded nothing. */
  lemma MintToTheWalletHidesItself(usdc: real)
    ensures var w := WALLET_MINT;
            var mint := [AddForeign("")] + [Rehash(0, "0x1")];
            var s := Run(w, Init(w, [], usdc), mint + [StartPass(1)] + [ScanNext] + [ScanNext]);
            && s.last == s.head == 1 && FoundOnly(s.entries) == []
            && Expected(w.filter, TxsOf(w.chain, 0, 1)) == [Found("0x1", "AAPL", 5)]
  {
    var w, s := WALLET_MINT, Init(WALLET_MINT, [], usdc);
    var mint := [AddForeign("")] + [Rehash(0, "0x1")];
    WalletMintMatches();
    MintIsStored(usdc);
    StoredMintIsSkipped(Run(w, s, mint));
    RunThen(w, s, mint, StartPass(1));
    RunThen(w, s, mint + [StartPass(1)], ScanNext);
    RunThen(w, s, mint + [StartPass(1)] + [ScanNext], ScanNext);
    NoneFoundYet([Foreign("0x1")]);
  }
}
