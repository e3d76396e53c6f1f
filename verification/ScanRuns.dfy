/** Runs of a block watcher: passes over the chain that may fail at any call and start over,
    while other requests add and change entries in between. */
module ScanRuns {
  import opened Basics
  import opened ChainScan

  /** A pass over blocks up to `to`, about to read transaction `next` of the whole chain. */
  datatype Pass = Pass(to: nat, next: nat)

  /** `usdc` is the wallet the deposit watcher credits, `reach` the furthest transaction any
      pass has read, `head` the highest block any pass aimed at; a later pass may aim lower. */
  datatype Watch = Watch(entries: seq<Entry>, usdc: real, last: nat, head: nat, pass: Option<Pass>, reach: nat)

  /** `AddForeign` and `Rehash` are what others do: mints and outgoing transfers are added, and
      get the hash of their own transaction later. */
  datatype Action =
    | StartPass(to: nat)
    | ScanNext
    | RpcFailure
    | AddForeign(hash: Hash)
    | Rehash(index: nat, hash: Hash)

  /** Everything fixed during a run: the chain, the block the watcher started at, its filter. */
  datatype World = World(chain: seq<Block>, start: nat, filter: Filter)

  ghost predicate Sane(w: World) {
    && w.start <= |w.chain|
    && forall i, j :: 0 <= i < j < |Txs(w)| ==> Txs(w)[i].hash != Txs(w)[j].hash
  }

  function Txs(w: World): seq<Tx>
  {
    if w.start <= |w.chain| then TxsOf(w.chain, w.start, |w.chain|) else []
  }

  /** The number of transactions below block `b`. */
  function Boundary(w: World, b: nat): nat
    requires w.start <= b <= |w.chain|
  {
    |TxsOf(w.chain, w.start, b)|
  }

  function Init(w: World, entries: seq<Entry>, usdc: real): Watch {
    Watch(entries, usdc, w.start, w.start, None, 0)
  }

  /** The pass after it read its next transaction. */
  function Read(w: World, s: Watch, p: Pass): Watch
    requires p.next < |Txs(w)|
  {
    var tx := Txs(w)[p.next];
    s.(entries := ScanLogs(w.filter, s.entries, tx.hash, tx.logs),
       usdc := s.usdc + CreditLogs(w.filter, s.entries, tx.hash, tx.logs),
       pass := Some(Pass(p.to, p.next + 1)), reach := Max(s.reach, p.next + 1))
  }

  function Step(w: World, s: Watch, a: Action): Watch {
    match a
    case StartPass(to) =>
      if s.pass.None? && w.start <= s.last < to <= |w.chain|
      then s.(pass := Some(Pass(to, Boundary(w, s.last))), head := Max(s.head, to)) else s
    case ScanNext =>
      if s.pass.None? || !(w.start <= s.pass.value.to <= |w.chain|) then s
      else
        var p := s.pass.value;
        if p.next < Boundary(w, p.to) && p.next < |Txs(w)| then Read(w, s, p)
        else s.(last := p.to, pass := None)
    case RpcFailure => s.(pass := None)
    case AddForeign(hash) => s.(entries := s.entries + [Foreign(hash)])
    case Rehash(i, hash) =>
      if i < |s.entries| && s.entries[i].Foreign? then s.(entries := s.entries[i := Foreign(hash)]) else s
  }

  function Run(w: World, s: Watch, actions: seq<Action>): Watch {
    if actions == [] then s
    else Step(w, Run(w, s, actions[..|actions| - 1]), actions[|actions| - 1])
  }

  // ----- where the passes stand

  ghost predicate Bounds(w: World, s: Watch) {
    && Sane(w)
    && w.start <= s.last <= s.head <= |w.chain| && s.reach <= |Txs(w)|
    && Boundary(w, s.last) <= s.reach <= Boundary(w, s.head)
    && (s.pass.Some? ==>
          && s.last <= s.pass.value.to <= s.head
          && Boundary(w, s.last) <= s.pass.value.next <= s.reach)
  }

  lemma BoundaryMonotone(w: World, a: nat, b: nat)
    requires w.start <= a <= b <= |w.chain|
    ensures Boundary(w, a) <= Boundary(w, b) <= |Txs(w)|
    ensures TxsOf(w.chain, w.start, b) <= Txs(w)
  {
    TxsOfPrefix(w.chain, w.start, a, b);
    TxsOfPrefix(w.chain, w.start, b, |w.chain|);
  }

  lemma ScanNextKeepsBounds(w: World, s: Watch, t: Watch)
    requires Bounds(w, s) && t == Step(w, s, ScanNext)
    ensures Bounds(w, t)
  {
    if s.pass.Some? {
      BoundaryMonotone(w, s.pass.value.to, s.head);
    }
  }

  lemma StepKeepsBounds(w: World, s: Watch, a: Action)
    requires Bounds(w, s)
    ensures Bounds(w, Step(w, s, a))
  {
    match a {
      case StartPass(to) =>
        if s.last <= to <= |w.chain| { BoundaryMonotone(w, s.head, Max(s.head, to)); }
      case ScanNext => ScanNextKeepsBounds(w, s, Step(w, s, a));
      case _ =>
    }
  }

  lemma {:induction false} RunKeepsBounds(w: World, entries: seq<Entry>, usdc: real, actions: seq<Action>)
    requires Sane(w)
    ensures Bounds(w, Run(w, Init(w, entries, usdc), actions))
  {
    if actions == [] {
      assert Boundary(w, w.start) == 0;
    } else {
      RunKeepsBounds(w, entries, usdc, actions[..|actions| - 1]);
      StepKeepsBounds(w, Run(w, Init(w, entries, usdc), actions[..|actions| - 1]), actions[|actions| - 1]);
    }
  }

  // ----- the wallet

  /** What the recorded entries are worth to the wallet. */
  ghost function Credit(w: World, entries: seq<Entry>): real {
    if w.filter.Deposits? then Value(entries) else 0.0
  }

  lemma StepCredits(w: World, s: Watch, a: Action)
    ensures Step(w, s, a).usdc - s.usdc == Credit(w, Step(w, s, a).entries) - Credit(w, s.entries)
  {
    match a {
      case ScanNext =>
        if s.pass.Some? && s.pass.value.next < |Txs(w)| {
          var tx := Txs(w)[s.pass.value.next];
          CreditIsValue(w.filter, s.entries, tx.hash, tx.logs);
        }
      case AddForeign(hash) => ValueAppend(s.entries, Foreign(hash));
      case Rehash(i, hash) => if i < |s.entries| && s.entries[i].Foreign? { RehashKeepsValue(s.entries, i, hash); }
      case _ =>
    }
  }

  lemma {:induction false} RehashKeepsValue(entries: seq<Entry>, i: nat, hash: Hash)
    requires i < |entries| && entries[i].Foreign?
    ensures Value(entries[i := Foreign(hash)]) == Value(entries)
  {
    var n := |entries| - 1;
    if i < n {
      RehashKeepsValue(entries[..n], i, hash);
      assert entries[i := Foreign(hash)][..n] == entries[..n][i := Foreign(hash)];
    } else {
      assert entries[i := Foreign(hash)][..n] == entries[..n];
    }
  }

  /** In every reachable state the wallet holds what it started with plus the recorded raw
      values / 10^6, whatever failed, was rescanned or was hidden. */
  lemma {:induction false} WalletIsStartPlusRecorded(w: World, entries: seq<Entry>, usdc: real, actions: seq<Action>)
    requires forall e <- entries :: e.Foreign?
    ensures var s := Run(w, Init(w, entries, usdc), actions);
            s.usdc == usdc + if w.filter.Deposits? then Value(s.entries) else 0.0
  {
    if actions == [] {
      ForeignIsWorthNothing(entries);
    } else {
      WalletIsStartPlusRecorded(w, entries, usdc, actions[..|actions| - 1]);
      StepCredits(w, Run(w, Init(w, entries, usdc), actions[..|actions| - 1]), actions[|actions| - 1]);
    }
  }

  lemma {:induction false} ForeignIsWorthNothing(entries: seq<Entry>)
    requires forall e <- entries :: e.Foreign?
    ensures Value(entries) == 0.0
  {
    if entries != [] {
      assert entries[|entries| - 1] in entries;
      ForeignIsWorthNothing(entries[..|entries| - 1]);
    }
  }

  // ----- a tick of the watcher is such a run

  /** A pass up to block `to` and its first `n` transactions. */
  function PassOf(to: nat, n: nat): seq<Action> {
    if n == 0 then [] + [StartPass(to)] else PassOf(to, n - 1) + [ScanNext]
  }

  lemma RunThen(w: World, s: Watch, actions: seq<Action>, a: Action)
    ensures Run(w, s, actions + [a]) == Step(w, Run(w, s, actions), a)
  {
    assert (actions + [a])[..|actions|] == actions;
  }

  lemma {:induction false} TxsOfSplit(chain: seq<Block>, a: nat, b: nat, c: nat)
    requires a <= b <= c <= |chain|
    ensures TxsOf(chain, a, c) == TxsOf(chain, a, b) + TxsOf(chain, b, c)
  {
    if b < c {
      TxsOfSplit(chain, a, b, c - 1);
    }
  }

  /** The transactions a pass from block `a` to block `b` reads. */
  lemma PassReads(w: World, a: nat, b: nat)
    requires w.start <= a <= b <= |w.chain|
    ensures Boundary(w, a) + |TxsOf(w.chain, a, b)| == Boundary(w, b) <= |Txs(w)|
    ensures forall k :: 0 <= k < |TxsOf(w.chain, a, b)| ==> Txs(w)[Boundary(w, a) + k] == TxsOf(w.chain, a, b)[k]
  {
    TxsOfSplit(w.chain, w.start, a, b);
    BoundaryMonotone(w, a, b);
    assert TxsOf(w.chain, w.start, b) == Txs(w)[..Boundary(w, b)];
  }

  /** `t` is `n` transactions into a pass up to block `to` that started at `s`. */
  ghost predicate Scanned(w: World, s: Watch, to: nat, n: nat, t: Watch)
    requires w.start <= s.last <= to <= |w.chain| && n <= |TxsOf(w.chain, s.last, to)|
  {
    && t.entries == ScanTxs(w.filter, s.entries, TxsOf(w.chain, s.last, to)[..n])
    && t.pass == Some(Pass(to, Boundary(w, s.last) + n)) && t.last == s.last && t.head == Max(s.head, to)
  }

  lemma NextScan(w: World, s: Watch, to: nat, n: nat, t: Watch)
    requires w.start <= s.last <= to <= |w.chain| && n < |TxsOf(w.chain, s.last, to)|
    requires Scanned(w, s, to, n, t)
    ensures Scanned(w, s, to, n + 1, Step(w, t, ScanNext))
  {
    PassReads(w, s.last, to);
    var txs := TxsOf(w.chain, s.last, to);
    assert txs[..n + 1][..n] == txs[..n];
    assert Txs(w)[Boundary(w, s.last) + n] == txs[n];
  }

  lemma PassStarts(w: World, s: Watch, to: nat)
    requires w.start <= s.last < to <= |w.chain| && s.pass.None?
    ensures Scanned(w, s, to, 0, Step(w, s, StartPass(to)))
  {
    assert TxsOf(w.chain, s.last, to)[..0] == [];
  }

  function AfterScans(w: World, s: Watch, n: nat): Watch {
    if n == 0 then s else Step(w, AfterScans(w, s, n - 1), ScanNext)
  }

  lemma {:induction false} RunOfPass(w: World, s: Watch, to: nat, n: nat)
    ensures Run(w, s, PassOf(to, n)) == AfterScans(w, Step(w, s, StartPass(to)), n)
  {
    if n == 0 {
      RunThen(w, s, [], StartPass(to));
    } else {
      RunOfPass(w, s, to, n - 1);
      RunThen(w, s, PassOf(to, n - 1), ScanNext);
    }
  }

  lemma {:induction false} PassScans(w: World, s: Watch, to: nat, n: nat, started: Watch)
    requires w.start <= s.last <= to <= |w.chain| && n <= |TxsOf(w.chain, s.last, to)|
    requires Scanned(w, s, to, 0, started)
    ensures Scanned(w, s, to, n, AfterScans(w, started, n))
  {
    if n > 0 {
      PassScans(w, s, to, n - 1, started);
      NextScan(w, s, to, n - 1, AfterScans(w, started, n - 1));
    }
  }

  /** A tick that processed `done` transactions and then failed, or all of them, is a run of
      these steps: it leaves the entries, the last block and the wallet that the in-place watcher
      does. */
  lemma TickIsARun(w: World, s: Watch, to: nat, done: nat, ok: bool)
    requires w.start <= s.last < to <= |w.chain| && s.pass.None?
    requires done <= |TxsOf(w.chain, s.last, to)| && (ok ==> done == |TxsOf(w.chain, s.last, to)|)
    ensures var t := Run(w, s, PassOf(to, done) + [if ok then ScanNext else RpcFailure]);
            && t.entries == ScanTxs(w.filter, s.entries, TxsOf(w.chain, s.last, to)[..done])
            && t.pass.None? && t.last == (if ok then to else s.last) && t.head == Max(s.head, to)
            && t.usdc - s.usdc == if w.filter.Deposits? then Value(t.entries) - Value(s.entries) else 0.0
  {
    PassCredits(w, s, to, done);
    PassReads(w, s.last, to);
    PassStarts(w, s, to);
    PassScans(w, s, to, done, Step(w, s, StartPass(to)));
    RunOfPass(w, s, to, done);
    RunThen(w, s, PassOf(to, done), if ok then ScanNext else RpcFailure);
  }

  lemma {:induction false} PassCredits(w: World, s: Watch, to: nat, n: nat)
    ensures var t := Run(w, s, PassOf(to, n)); t.usdc - s.usdc == Credit(w, t.entries) - Credit(w, s.entries)
  {
    if n == 0 {
      RunThen(w, s, [], StartPass(to));
    } else {
      PassCredits(w, s, to, n - 1);
      RunThen(w, s, PassOf(to, n - 1), ScanNext);
      StepCredits(w, Run(w, s, PassOf(to, n - 1)), ScanNext);
    }
  }
}
