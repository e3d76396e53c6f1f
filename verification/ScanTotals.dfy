/** What a failure-free scan records of a list of transactions, and what that is worth. */
module ScanTotals {
  import opened Basics
  import opened ChainScan

  // ----- the recorded entries

  lemma {:induction false} FoundOnlyKeepsMembers(entries: seq<Entry>)
    ensures forall e :: e in FoundOnly(entries) <==> e in entries && e.Found?
  {
    if entries != [] {
      FoundOnlyKeepsMembers(entries[..|entries| - 1]);
      assert entries == entries[..|entries| - 1] + [entries[|entries| - 1]];
    }
  }

  lemma {:induction false} FoundOnlyIgnoresForeign(entries: seq<Entry>, i: nat, hash: Hash)
    requires i < |entries| && entries[i].Foreign?
    ensures FoundOnly(entries[i := Foreign(hash)]) == FoundOnly(entries)
  {
    var n := |entries| - 1;
    if i < n {
      FoundOnlyIgnoresForeign(entries[..n], i, hash);
      assert entries[i := Foreign(hash)][..n] == entries[..n][i := Foreign(hash)];
    } else {
      assert entries[i := Foreign(hash)][..n] == entries[..n];
    }
  }

  lemma {:induction false} NoneFoundYet(entries: seq<Entry>)
    requires forall e <- entries :: e.Foreign?
    ensures FoundOnly(entries) == []
  {
    if entries != [] {
      assert entries[|entries| - 1] in entries;
      NoneFoundYet(entries[..|entries| - 1]);
    }
  }

  /** The expected entries name exactly the transactions with a match. */
  lemma {:induction false} ExpectedNamesMatches(f: Filter, txs: seq<Tx>)
    ensures forall e <- Expected(f, txs) :: e.Found? && exists tx <- txs :: tx.hash == e.hash
    ensures forall tx <- txs :: FirstMatch(f, tx.logs).Some? ==> exists e <- Expected(f, txs) :: e.hash == tx.hash
  {
    if txs != [] {
      var front, last := txs[..|txs| - 1], txs[|txs| - 1];
      ExpectedNamesMatches(f, front);
      assert txs == front + [last];
      forall e | e in Expected(f, txs) ensures e.Found? && exists tx <- txs :: tx.hash == e.hash {
        if e in Expected(f, front) {
          var tx :| tx in front && tx.hash == e.hash;
          assert tx in txs;
        } else {
          assert last in txs && last.hash == e.hash;
        }
      }
      forall tx | tx in txs && FirstMatch(f, tx.logs).Some? ensures exists e <- Expected(f, txs) :: e.hash == tx.hash {
        if tx in front {
          var e :| e in Expected(f, front) && e.hash == tx.hash;
          assert e in Expected(f, txs);
        } else {
          assert Expected(f, txs)[|Expected(f, txs)| - 1].hash == tx.hash;
        }
      }
    }
  }

  lemma {:induction false} ExpectedComesFromItsTx(f: Filter, txs: seq<Tx>, n: nat, e: Entry, k: nat)
    requires n <= |txs| && k < |txs| && e in Expected(f, txs[..n]) && e.hash == txs[k].hash
    requires forall i, j :: 0 <= i < j < |txs| ==> txs[i].hash != txs[j].hash
    ensures k < n && FirstMatch(f, txs[k].logs).Some?
  {
    assert n > 0;
    assert txs[..n][..n - 1] == txs[..n - 1];
    if e in Expected(f, txs[..n - 1]) {
      ExpectedComesFromItsTx(f, txs, n - 1, e, k);
    }
  }

  lemma ExpectedGrows(f: Filter, txs: seq<Tx>, k: nat)
    requires k < |txs|
    ensures Expected(f, txs[..k + 1]) ==
              var front, found := Expected(f, txs[..k]), FirstMatch(f, txs[k].logs);
              if found.None? then front else front + [Found(txs[k].hash, found.value.0, found.value.1)]
  {
    assert txs[..k + 1][..k] == txs[..k];
  }

  /** No transaction hash is ever recorded twice. */
  lemma {:induction false} ExpectedHashesAreDistinct(f: Filter, txs: seq<Tx>)
    requires forall i, j :: 0 <= i < j < |txs| ==> txs[i].hash != txs[j].hash
    ensures forall i, j :: 0 <= i < j < |Expected(f, txs)| ==> Expected(f, txs)[i].hash != Expected(f, txs)[j].hash
  {
    if txs != [] {
      var front, last := txs[..|txs| - 1], txs[|txs| - 1];
      ExpectedHashesAreDistinct(f, front);
      ExpectedNamesMatches(f, front);
      forall e | e in Expected(f, front) ensures e.hash != last.hash {
        var tx :| tx in front && tx.hash == e.hash;
        var i :| 0 <= i < |front| && front[i] == tx;
        assert txs[i] == tx;
      }
    }
  }

  // ----- their value

  lemma {:induction false} ValueOfFound(entries: seq<Entry>)
    ensures Value(FoundOnly(entries)) == Value(entries)
  {
    if entries != [] {
      var front, last := entries[..|entries| - 1], entries[|entries| - 1];
      ValueOfFound(front);
      ValueAppend(FoundOnly(front), last);
    }
  }

  lemma {:induction false} ValueRemove(entries: seq<Entry>, i: nat)
    requires i < |entries|
    ensures Value(entries) == Value(entries[..i] + entries[i + 1..]) + Value([entries[i]])
  {
    var n := |entries| - 1;
    assert [entries[i]][..0] == [];
    if i < n {
      ValueRemove(entries[..n], i);
      assert (entries[..i] + entries[i + 1..])[..n - 1] == entries[..n][..i] + entries[..n][i + 1..];
    } else {
      assert entries[..i] + entries[i + 1..] == entries[..n];
    }
  }

  lemma TakeOut(entries: seq<Entry>, e: Entry) returns (rest: seq<Entry>)
    requires e in entries
    ensures multiset(rest) == multiset(entries) - multiset{e}
    ensures Value(entries) == Value(rest) + Value([e])
  {
    var i :| 0 <= i < |entries| && entries[i] == e;
    rest := entries[..i] + entries[i + 1..];
    ValueRemove(entries, i);
    assert entries == entries[..i] + [e] + entries[i + 1..];
  }

  /** The order of recording does not matter to the sum. */
  lemma {:induction false} ValueOfPermutation(a: seq<Entry>, b: seq<Entry>)
    requires multiset(a) == multiset(b)
    ensures Value(a) == Value(b)
    decreases |a|
  {
    if a == [] {
      assert |multiset(b)| == 0;
    } else {
      var e := a[|a| - 1];
      assert e in multiset(b);
      var fewer := TakeOut(a, e);
      var rest := TakeOut(b, e);
      assert |multiset(fewer)| == |a| - 1;
      ValueOfPermutation(fewer, rest);
    }
  }

  // ----- what one record a transaction leaves out

  /** The USDC value of every matching log. */
  ghost function SentValue(f: Filter, logs: seq<Log>): nat {
    if logs == [] then 0
    else
      var found := Match(f, logs[|logs| - 1]);
      SentValue(f, logs[..|logs| - 1]) + if found.Some? then found.value.1 else 0
  }

  ghost function TotalSent(f: Filter, txs: seq<Tx>): nat {
    if txs == [] then 0
    else TotalSent(f, txs[..|txs| - 1]) + SentValue(f, txs[|txs| - 1].logs)
  }

  ghost function TotalRecorded(f: Filter, txs: seq<Tx>): nat {
    if txs == [] then 0
    else TotalRecorded(f, txs[..|txs| - 1]) + FirstValue(f, txs[|txs| - 1].logs)
  }

  ghost function FirstValue(f: Filter, logs: seq<Log>): nat {
    var found := FirstMatch(f, logs);
    if found.Some? then found.value.1 else 0
  }

  /** A matching log of positive value comes after an earlier match. */
  ghost predicate PaysTwice(f: Filter, logs: seq<Log>) {
    logs != [] &&
    var front, last := logs[..|logs| - 1], Match(f, logs[|logs| - 1]);
    PaysTwice(f, front) || (FirstMatch(f, front).Some? && last.Some? && last.value.1 > 0)
  }

  lemma {:induction false} FirstLogPaysAllUnlessTwice(f: Filter, logs: seq<Log>)
    ensures FirstValue(f, logs) <= SentValue(f, logs)
    ensures FirstValue(f, logs) == SentValue(f, logs) <==> !PaysTwice(f, logs)
  {
    if logs != [] {
      FirstLogPaysAllUnlessTwice(f, logs[..|logs| - 1]);
    }
  }

  /** The watcher credits everything sent exactly when no transaction pays the account twice:
      it keeps one entry a transaction hash, so a second payment is dropped. */
  lemma {:induction false} EverythingSentIsRecordedIff(f: Filter, txs: seq<Tx>)
    ensures TotalRecorded(f, txs) <= TotalSent(f, txs)
    ensures TotalRecorded(f, txs) == TotalSent(f, txs) <==> forall tx <- txs :: !PaysTwice(f, tx.logs)
  {
    if txs != [] {
      var front, last := txs[..|txs| - 1], txs[|txs| - 1];
      EverythingSentIsRecordedIff(f, front);
      FirstLogPaysAllUnlessTwice(f, last.logs);
      assert txs == front + [last];
    }
  }

  lemma {:induction false} RecordedValueOfExpected(f: Filter, txs: seq<Tx>)
    ensures Value(Expected(f, txs)) == TotalRecorded(f, txs) as real / 1000000.0
  {
    if txs != [] {
      var front, last := txs[..|txs| - 1], txs[|txs| - 1];
      RecordedValueOfExpected(f, front);
      var found := FirstMatch(f, last.logs);
      if found.Some? {
        ValueAppend(Expected(f, front), Found(last.hash, found.value.0, found.value.1));
      }
    }
  }

  /** A transaction with two payments of one unit: one is credited. */
  lemma SecondPaymentIsDropped()
    ensures var f := Deposits(1, 2, Some(3));
            var pay := Log(1, [TRANSFER, 2, 3], 1000000, true);
            TotalSent(f, [Tx("0x1", [pay, pay])]) == 2000000 && TotalRecorded(f, [Tx("0x1", [pay, pay])]) == 1000000
  {
    var f := Deposits(1, 2, Some(3));
    var pay := Log(1, [TRANSFER, 2, 3], 1000000, true);
    assert [pay, pay][..1] == [pay] && [pay][..0] == [];
    assert Match(f, pay) == Some(("USDC", 1000000));
    assert SentValue(f, [pay]) == 1000000 && FirstMatch(f, [pay]) == Some(("USDC", 1000000));
    assert [Tx("0x1", [pay, pay])][..0] == [];
  }
}
