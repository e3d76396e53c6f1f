/** The block scanners behind the deposit watcher of the broker mock and the redemption
    watcher of the tokenization mock.

    Both walk the transactions of a block range, record the first matching Transfer log of a
    transaction unless an entry with its hash exists, stop at the first RPC error, and start
    the range over on the next tick. Other requests add entries in between. */
module ChainScan {
  import opened Basics
  import opened Decimal

  type Address = nat
  type Hash = string

  /** `topics` of a Transfer log: the event signature, sender and receiver. `value` is its
      data; `decodable` says that the amount fits the type it is read into. */
  datatype Log = Log(address: Address, topics: seq<nat>, value: nat, decodable: bool)

  datatype Tx = Tx(hash: Hash, logs: seq<Log>)

  type Block = seq<Tx>

  const TRANSFER: nat := 0

  /** Which logs a watcher records. The deposit account is unset until the wallet endpoints
      are registered. */
  datatype Filter =
    | Deposits(usdc: Address, sender: Address, account: Option<Address>)
    | Redemptions(wallet: Address, tokens: map<Address, string>)

  datatype Entry =
    | Found(hash: Hash, symbol: string, raw: nat)  // recorded by the watcher
    | Foreign(hash: Hash)                          // outgoing transfers, mints

  function Match(f: Filter, l: Log): Option<(string, nat)> {
    match f
    case Deposits(usdc, sender, account) =>
      if l.decodable && account.Some? && l.topics == [TRANSFER, sender, account.value] && l.address == usdc
      then Some(("USDC", l.value)) else None
    case Redemptions(wallet, tokens) =>
      if |l.topics| > 2 && l.topics[0] == TRANSFER && l.topics[2] == wallet && l.address in tokens && l.decodable
      then Some((tokens[l.address], l.value)) else None
  }

  /** A deposit is a Transfer of the USDC contract from the sender to the account; a redemption is
      a Transfer of a known token to the redemption wallet, from anyone; of the value it carries. */
  lemma WhatMatches(f: Filter, l: Log)
    ensures f.Deposits? ==>
              Match(f, l) == if && l.decodable && l.address == f.usdc && |l.topics| == 3 && l.topics[0] == TRANSFER
                                && l.topics[1] == f.sender && f.account == Some(l.topics[2])
                             then Some(("USDC", l.value)) else None
    ensures f.Redemptions? ==>
              Match(f, l) == if && l.decodable && l.address in f.tokens && |l.topics| >= 3 && l.topics[0] == TRANSFER
                                && l.topics[2] == f.wallet
                             then Some((f.tokens[l.address], l.value)) else None
  {
  }

  predicate Known(entries: seq<Entry>, hash: Hash) { exists e <- entries :: e.hash == hash }

  /** What one log adds. */
  function Recorded(f: Filter, entries: seq<Entry>, hash: Hash, l: Log): seq<Entry> {
    var found := Match(f, l);
    if found.None? || Known(entries, hash) then entries
    else entries + [Found(hash, found.value.0, found.value.1)]
  }

  function ScanLogs(f: Filter, entries: seq<Entry>, hash: Hash, logs: seq<Log>): seq<Entry> {
    if logs == [] then entries
    else Recorded(f, ScanLogs(f, entries, hash, logs[..|logs| - 1]), hash, logs[|logs| - 1])
  }

  /** What the same logs add to the wallet: each recorded deposit, as printed and read back. */
  function CreditLogs(f: Filter, entries: seq<Entry>, hash: Hash, logs: seq<Log>): real {
    if logs == [] then 0.0
    else
      var front, found := logs[..|logs| - 1], Match(f, logs[|logs| - 1]);
      CreditLogs(f, entries, hash, front) +
      if f.Deposits? && found.Some? && !Known(ScanLogs(f, entries, hash, front), hash)
      then UsdcAmount(found.value.1) else 0.0
  }

  function ScanTxs(f: Filter, entries: seq<Entry>, txs: seq<Tx>): seq<Entry> {
    if txs == [] then entries
    else
      var last := txs[|txs| - 1];
      ScanLogs(f, ScanTxs(f, entries, txs[..|txs| - 1]), last.hash, last.logs)
  }

  // ----- the reference: the first match of every transaction, in chain order

  ghost function FirstMatch(f: Filter, logs: seq<Log>): Option<(string, nat)> {
    if logs == [] then None
    else
      var front := FirstMatch(f, logs[..|logs| - 1]);
      if front.Some? then front else Match(f, logs[|logs| - 1])
  }

  ghost function Expected(f: Filter, txs: seq<Tx>): seq<Entry> {
    if txs == [] then []
    else
      var front, last := Expected(f, txs[..|txs| - 1]), txs[|txs| - 1];
      var found := FirstMatch(f, last.logs);
      if found.None? then front else front + [Found(last.hash, found.value.0, found.value.1)]
  }

  ghost function FoundOnly(entries: seq<Entry>): seq<Entry> {
    if entries == [] then []
    else
      var front, last := FoundOnly(entries[..|entries| - 1]), entries[|entries| - 1];
      if last.Found? then front + [last] else front
  }

  /** All a transaction's logs do is record its first match, once. */
  lemma {:induction false} ScanLogsRecordsFirstMatch(f: Filter, entries: seq<Entry>, hash: Hash, logs: seq<Log>)
    ensures ScanLogs(f, entries, hash, logs) ==
              var found := FirstMatch(f, logs);
              if found.None? || Known(entries, hash) then entries
              else entries + [Found(hash, found.value.0, found.value.1)]
  {
    if logs != [] {
      ScanLogsRecordsFirstMatch(f, entries, hash, logs[..|logs| - 1]);
      var e := FirstMatch(f, logs[..|logs| - 1]);
      if e.Some? && !Known(entries, hash) {
        var front := ScanLogs(f, entries, hash, logs[..|logs| - 1]);
        assert front[|front| - 1].hash == hash;
      }
    }
  }

  lemma {:induction false} ScanTxsOfConcat(f: Filter, entries: seq<Entry>, a: seq<Tx>, b: seq<Tx>)
    ensures ScanTxs(f, entries, a + b) == ScanTxs(f, ScanTxs(f, entries, a), b)
  {
    if b == [] {
      assert a + b == a;
    } else {
      assert (a + b)[..|a + b| - 1] == a + b[..|b| - 1];
      ScanTxsOfConcat(f, entries, a, b[..|b| - 1]);
    }
  }

  lemma FoundOnlyAppend(entries: seq<Entry>, e: Entry)
    ensures FoundOnly(entries + [e]) == if e.Found? then FoundOnly(entries) + [e] else FoundOnly(entries)
  {
    assert (entries + [e])[..|entries|] == entries;
  }

  // ----- the watcher in place

  /** How the RPC node answers while one block is scanned. */
  datatype BlockRpc = BlockRpc(fetched: bool, receipts: seq<bool>)

  predicate Unset(f: Filter) { f.Deposits? && f.account.None? }

  /** No call that the scan of the block makes fails: without an account to match it asks for
      no receipt. */
  predicate AllAnswered(f: Filter, rpc: BlockRpc) { rpc.fetched && (Unset(f) || false !in rpc.receipts) }

  lemma {:induction false} UnsetScansNothing(f: Filter, entries: seq<Entry>, txs: seq<Tx>)
    requires Unset(f)
    ensures ScanTxs(f, entries, txs) == entries
  {
    if txs != [] {
      var last := txs[|txs| - 1];
      UnsetScansNothing(f, entries, txs[..|txs| - 1]);
      ScanLogsRecordsFirstMatch(f, entries, last.hash, last.logs);
      UnsetMatchesNothing(f, last.logs);
    }
  }

  lemma {:induction false} UnsetMatchesNothing(f: Filter, logs: seq<Log>)
    requires Unset(f)
    ensures FirstMatch(f, logs).None?
  {
    if logs != [] { UnsetMatchesNothing(f, logs[..|logs| - 1]); }
  }

  /** All transactions of blocks `from..to`, in order. */
  function TxsOf(chain: seq<Block>, from: nat, to: nat): seq<Tx>
    requires from <= to <= |chain|
  {
    if from == to then [] else TxsOf(chain, from, to - 1) + chain[to - 1]
  }

  class Watcher {
    const filter: Filter
    var entries: seq<Entry>
    var usdc: real          // what recorded deposits added to the wallet
    var lastBlock: nat      // blocks below this index are done

    constructor (filter: Filter, entries: seq<Entry>, start: nat)
      ensures this.filter == filter && this.entries == entries && lastBlock == start
      ensures usdc == 0.0
    {
      this.filter, this.entries, lastBlock := filter, entries, start;
      usdc := 0.0;
    }

    /** The recorded entries grew from `before`, and the wallet by their value. */
    twostate predicate Credits(before: seq<Entry>)
      reads this
    {
      usdc - old(usdc) == if filter.Deposits? then Value(entries) - Value(before) else 0.0
    }

    method RecordLog(hash: Hash, l: Log)
      modifies `entries, `usdc
      ensures entries == Recorded(filter, old(entries), hash, l)
      ensures Credits(old(entries))
    {
      var found := Match(filter, l);
      if found.None? || Known(entries, hash) {
        return;
      }
      var (symbol, raw) := found.value;
      if filter.Deposits? {
        usdc := usdc + UsdcAmount(raw);
      }
      ValueAppend(entries, Found(hash, symbol, raw));
      entries := entries + [Found(hash, symbol, raw)];
    }

    /** Scans one block up to the first failed call. */
    method ScanBlock(block: Block, rpc: BlockRpc) returns (ok: bool, ghost done: nat)
      requires |rpc.receipts| == |block|
      modifies `entries, `usdc
      ensures done <= |block| && entries == ScanTxs(filter, old(entries), block[..done])
      ensures ok ==> done == |block|
      ensures ok <==> AllAnswered(filter, rpc)
      ensures Credits(old(entries))
    {
      done := 0;
      if !rpc.fetched {
        return false, done;
      }
      if Unset(filter) {
        done := |block|;
        UnsetScansNothing(filter, entries, block[..done]);
        return true, done;
      }
      for k := 0 to |block|
        invariant done == k && entries == ScanTxs(filter, old(entries), block[..k])
        invariant false !in rpc.receipts[..k]
        invariant Credits(old(entries))
      {
        if !rpc.receipts[k] {
          assert rpc.receipts[k] in rpc.receipts;
          return false, done;
        }
        var tx := block[k];
        ghost var before := entries;
        for j := 0 to |tx.logs|
          invariant entries == ScanLogs(filter, before, tx.hash, tx.logs[..j])
          invariant Credits(old(entries))
        {
          RecordLog(tx.hash, tx.logs[j]);
          assert tx.logs[..j + 1][..j] == tx.logs[..j];
        }
        assert tx.logs[..|tx.logs|] == tx.logs;
        assert block[..k + 1][..k] == block[..k];
        assert rpc.receipts[..k + 1] == rpc.receipts[..k] + [rpc.receipts[k]];
        done := k + 1;
      }
      assert rpc.receipts[..|block|] == rpc.receipts;
      ok := true;
    }

    /** Scans the blocks `from..to`; true only when every block was fully processed. */
    method ScanRange(chain: seq<Block>, from: nat, to: nat, rpc: seq<BlockRpc>) returns (ok: bool, ghost done: nat)
      requires from <= to <= |chain| && |rpc| == to - from
      requires forall k :: 0 <= k < |rpc| ==> |rpc[k].receipts| == |chain[from + k]|
      modifies `entries, `usdc
      ensures done <= |TxsOf(chain, from, to)|
      ensures entries == ScanTxs(filter, old(entries), TxsOf(chain, from, to)[..done])
      ensures ok ==> done == |TxsOf(chain, from, to)|
      ensures ok <==> forall k :: 0 <= k < |rpc| ==> AllAnswered(filter, rpc[k])
      ensures Credits(old(entries))
    {
      done := 0;
      for b := from to to
        invariant done == |TxsOf(chain, from, b)|
        invariant forall k :: 0 <= k < b - from ==> AllAnswered(filter, rpc[k])
        invariant entries == ScanTxs(filter, old(entries), TxsOf(chain, from, b))
        invariant Credits(old(entries))
      {
        ghost var part;
        ok, part := ScanBlock(chain[b], rpc[b - from]);
        ScanTxsOfConcat(filter, old(entries), TxsOf(chain, from, b), chain[b][..part]);
        done := done + part;
        if !ok {
          TxsOfPrefix(chain, from, b + 1, to);
          assert TxsOf(chain, from, to)[..done] == TxsOf(chain, from, b) + chain[b][..part];
          return;
        }
        assert chain[b][..part] == chain[b];
      }
      assert TxsOf(chain, from, to)[..done] == TxsOf(chain, from, to);
      ok := true;
    }

    /** One tick of the watcher loop: nothing to do, or one pass over the new blocks, whose
        failure leaves them all to the next tick. */
    method Tick(chain: seq<Block>, head: Option<nat>, rpc: seq<BlockRpc>) returns (ghost done: nat)
      requires lastBlock <= |chain|
      requires head.Some? && lastBlock < head.value ==>
                 && head.value <= |chain| && |rpc| == head.value - lastBlock
                 && forall k :: 0 <= k < |rpc| ==> |rpc[k].receipts| == |chain[lastBlock + k]|
      modifies this
      ensures Credits(old(entries))
      ensures head.None? || head.value <= old(lastBlock) ==> entries == old(entries) && lastBlock == old(lastBlock)
      ensures head.Some? && old(lastBlock) < head.value ==>
                var txs := TxsOf(chain, old(lastBlock), head.value);
                && done <= |txs| && entries == ScanTxs(filter, old(entries), txs[..done])
                && (if forall k :: 0 <= k < |rpc| ==> AllAnswered(filter, rpc[k])
                    then lastBlock == head.value && done == |txs|
                    else lastBlock == old(lastBlock))
    {
      done := 0;
      if head.None? || head.value <= lastBlock {
        return;
      }
      var ok;
      ok, done := ScanRange(chain, lastBlock, head.value, rpc);
      if ok {
        lastBlock := head.value;
      }
    }
  }

  /** The USDC value of the recorded entries. */
  ghost function Value(entries: seq<Entry>): real {
    if entries == [] then 0.0
    else
      var last := entries[|entries| - 1];
      Value(entries[..|entries| - 1]) + if last.Found? then last.raw as real / 1000000.0 else 0.0
  }

  lemma ValueAppend(entries: seq<Entry>, e: Entry)
    ensures Value(entries + [e]) == Value(entries) + if e.Found? then e.raw as real / 1000000.0 else 0.0
  {
    assert (entries + [e])[..|entries|] == entries;
  }

  lemma {:induction false} CreditIsValue(f: Filter, entries: seq<Entry>, hash: Hash, logs: seq<Log>)
    ensures CreditLogs(f, entries, hash, logs) ==
            if f.Deposits? then Value(ScanLogs(f, entries, hash, logs)) - Value(entries) else 0.0
  {
    if logs != [] {
      var front, found := logs[..|logs| - 1], Match(f, logs[|logs| - 1]);
      CreditIsValue(f, entries, hash, front);
      if found.Some? {
        ValueAppend(ScanLogs(f, entries, hash, front), Found(hash, found.value.0, found.value.1));
      }
    }
  }

  lemma {:induction false} TxsOfPrefix(chain: seq<Block>, from: nat, mid: nat, to: nat)
    requires from <= mid <= to <= |chain|
    ensures TxsOf(chain, from, mid) <= TxsOf(chain, from, to)
  {
    if mid < to {
      TxsOfPrefix(chain, from, mid, to - 1);
    }
  }
}
