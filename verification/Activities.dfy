/** The account-activity ledger endpoint and the paginating client that reads it. */
module Activities {
  import opened Basics
  import opened Decimal

  const ACCOUNT_ACTIVITIES_PAGE_SIZE: nat := 100

  datatype Activity = Activity(id: string, activityType: string, netAmount: string,
                               symbol: Option<string>, transactionTime: int)

  /** What a caller of `push_activity` supplies; the ledger assigns the id. */
  datatype NewActivity = NewActivity(activityType: string, netAmount: string,
                                     symbol: Option<string>, transactionTime: int)

  datatype Query = Query(activityTypes: seq<string>, after: Option<int>, until: Option<int>)

  // ----- the ledger

  function ActivityId(n: nat): string { "mock-activity-" + Pad(Digits(n), 6) }

  function Pushed(rows: seq<Activity>, row: NewActivity): seq<Activity> {
    rows + [Activity(ActivityId(|rows| + 1), row.activityType, row.netAmount, row.symbol, row.transactionTime)]
  }

  ghost predicate WellNumbered(rows: seq<Activity>) {
    forall i :: 0 <= i < |rows| ==> rows[i].id == ActivityId(i + 1)
  }

  /** An id is the fixed prefix and the row's number, in at least six digits. */
  lemma ActivityIdShowsItsNumber(n: nat)
    ensures var prefix := "mock-activity-";
            && prefix <= ActivityId(n)
            && var digits := ActivityId(n)[|prefix|..];
               AllDigits(digits) && NatOf(digits) == n && |digits| == Max(6, |Digits(n)|)
  {
    var prefix := "mock-activity-";
    assert ActivityId(n)[|prefix|..] == Pad(Digits(n), 6);
    DigitsRoundTrip(n);
    PaddingKeepsValue(Digits(n), 6);
  }

  /** Ids never repeat, also past six digits, so an id is a cursor. */
  lemma ActivityIdIsInjective(m: nat, n: nat)
    requires ActivityId(m) == ActivityId(n)
    ensures m == n
  {
    var prefix := "mock-activity-";
    assert ActivityId(m)[|prefix|..] == Pad(Digits(m), 6);
    assert ActivityId(n)[|prefix|..] == Pad(Digits(n), 6);
    DigitsRoundTrip(m);
    DigitsRoundTrip(n);
    PaddingKeepsValue(Digits(m), 6);
    PaddingKeepsValue(Digits(n), 6);
  }

  ghost predicate DistinctIds(rows: seq<Activity>) {
    forall i, j :: 0 <= i < j < |rows| ==> rows[i].id != rows[j].id
  }

  lemma WellNumberedIdsAreDistinct(rows: seq<Activity>)
    requires WellNumbered(rows)
    ensures DistinctIds(rows)
  {
    forall i, j | 0 <= i < j < |rows| ensures rows[i].id != rows[j].id {
      if rows[i].id == rows[j].id {
        ActivityIdIsInjective(i + 1, j + 1);
      }
    }
  }

  // ----- the endpoint

  /** The client omits an empty type list, which the endpoint reads as any type. */
  predicate Wanted(q: Query, row: Activity) {
    && (q.activityTypes == [] || row.activityType in q.activityTypes)
    && (q.after.None? || q.after.value < row.transactionTime)
    && (q.until.None? || row.transactionTime < q.until.value)
  }

  /** The reference: the wanted rows in ledger order. */
  function Matching(q: Query, rows: seq<Activity>): seq<Activity> {
    if rows == [] then []
    else
      var front, last := Matching(q, rows[..|rows| - 1]), rows[|rows| - 1];
      if Wanted(q, last) then front + [last] else front
  }

  /** Where a page starts: after the row the token names, or past the end. */
  function PageStart(rows: seq<Activity>, token: Option<string>): (k: nat)
    ensures k <= |rows|
  {
    if token.None? then 0 else PositionAfter(rows, token.value)
  }

  function PositionAfter(rows: seq<Activity>, id: string): (k: nat)
    ensures k <= |rows|
  {
    if rows == [] then 0
    else if rows[0].id == id then 1
    else PositionAfter(rows[1..], id) + 1
  }

  function Page(rows: seq<Activity>, q: Query, token: Option<string>): seq<Activity> {
    var matching := Matching(q, rows);
    var start := PageStart(matching, token);
    matching[start..Min(start + ACCOUNT_ACTIVITIES_PAGE_SIZE, |matching|)]
  }

  lemma {:induction false} MatchingOfConcat(q: Query, a: seq<Activity>, b: seq<Activity>)
    ensures Matching(q, a + b) == Matching(q, a) + Matching(q, b)
  {
    if b == [] {
      assert a + b == a;
    } else {
      assert (a + b)[..|a + b| - 1] == a + b[..|b| - 1];
      MatchingOfConcat(q, a, b[..|b| - 1]);
    }
  }

  /** Appending rows extends every reading of the ledger. */
  lemma MatchingGrows(q: Query, rows: seq<Activity>, more: seq<Activity>)
    requires rows <= more
    ensures Matching(q, rows) <= Matching(q, more)
  {
    assert more == rows + more[|rows|..];
    MatchingOfConcat(q, rows, more[|rows|..]);
  }

  lemma {:induction false} MatchingIsFromLedger(q: Query, rows: seq<Activity>)
    ensures forall r <- Matching(q, rows) :: r in rows
    ensures DistinctIds(rows) ==> DistinctIds(Matching(q, rows))
  {
    if rows != [] {
      var front := rows[..|rows| - 1];
      MatchingIsFromLedger(q, front);
      assert rows == front + [rows[|rows| - 1]];
      if DistinctIds(rows) {
        forall r | r in Matching(q, front) ensures r.id != rows[|rows| - 1].id {
          var i :| 0 <= i < |front| && front[i] == r;
          assert rows[i] == r;
        }
      }
    }
  }

  /** A row is matched exactly when it is in the ledger, its type is asked for (or none is), and
      its time lies strictly between the bounds that are given; as often as the ledger has it. */
  lemma {:induction false} MatchingIsTheFilter(q: Query, rows: seq<Activity>, r: Activity)
    ensures multiset(Matching(q, rows))[r] ==
            if && (|q.activityTypes| == 0 || r.activityType in q.activityTypes)
               && (q.after.Some? ==> r.transactionTime > q.after.value)
               && (q.until.Some? ==> r.transactionTime < q.until.value)
            then multiset(rows)[r] else 0
  {
    if rows != [] {
      var n := |rows| - 1;
      MatchingIsTheFilter(q, rows[..n], r);
      assert rows == rows[..n] + [rows[n]];
    }
  }

  /** A token is the cursor of its own row. */
  lemma {:induction false} TokenNamesItsRow(rows: seq<Activity>, k: nat)
    requires DistinctIds(rows) && k < |rows|
    ensures PositionAfter(rows, rows[k].id) == k + 1
  {
    if k > 0 {
      TokenNamesItsRow(rows[1..], k - 1);
    }
  }

  class ActivityLedger {
    var rows: seq<Activity>

    ghost predicate Valid()
      reads this
    {
      WellNumbered(rows)
    }

    constructor ()
      ensures Valid() && rows == []
    {
      rows := [];
    }

    method Push(row: NewActivity)
      requires Valid()
      modifies this
      ensures Valid() && rows == Pushed(old(rows), row)
    {
      var id := ActivityId(|rows| + 1);
      rows := rows + [Activity(id, row.activityType, row.netAmount, row.symbol, row.transactionTime)];
    }

    method PushAll(more: seq<NewActivity>)
      requires Valid()
      modifies this
      ensures Valid() && old(rows) <= rows && |rows| == |old(rows)| + |more|
    {
      for k := 0 to |more|
        invariant Valid() && old(rows) <= rows && |rows| == |old(rows)| + k
      {
        Push(more[k]);
      }
    }
  }

  // ----- the client

  datatype Failure =
    | FetchFailed
    | PaginationInvariantViolation
    | PageLimitExceeded(pages: nat)

  datatype Read = Complete(rows: seq<Activity>) | Incomplete(failure: Failure)

  /** The token that follows the first `taken` rows of a reading. */
  ghost predicate Cursor(token: Option<string>, matching: seq<Activity>, taken: nat) {
    && taken <= |matching|
    && (taken == 0 ==> token.None?)
    && (taken > 0 ==> token == Some(matching[taken - 1].id))
  }

  lemma NextPage(rows: seq<Activity>, q: Query, token: Option<string>, taken: nat)
    requires WellNumbered(rows) && Cursor(token, Matching(q, rows), taken)
    ensures var matching := Matching(q, rows);
            Page(rows, q, token) == matching[taken..Min(taken + ACCOUNT_ACTIVITIES_PAGE_SIZE, |matching|)]
    ensures DistinctIds(Matching(q, rows))
  {
    WellNumberedIdsAreDistinct(rows);
    MatchingIsFromLedger(q, rows);
    if taken > 0 {
      TokenNamesItsRow(Matching(q, rows), taken - 1);
    }
  }

  /** What happens around one fetch: rows others append before it, and whether it fails. */
  datatype Fetch = Fetch(appended: seq<NewActivity>, lost: bool)

  /** One fetch at the cursor after the rows `read` so far: it extends what was read along
      the reading the ledger then gives, and a short page completes that reading. */
  method FetchPage(ledger: ActivityLedger, q: Query, token: Option<string>, ghost read: seq<Activity>, fetch: Fetch)
    returns (page: seq<Activity>)
    requires ledger.Valid() && read <= Matching(q, ledger.rows)
    requires Cursor(token, Matching(q, ledger.rows), |read|)
    modifies ledger
    ensures ledger.Valid() && old(ledger.rows) <= ledger.rows
    ensures fetch.appended == [] ==> ledger.rows == old(ledger.rows)
    ensures |page| <= ACCOUNT_ACTIVITIES_PAGE_SIZE && read + page <= Matching(q, ledger.rows)
    ensures |page| < ACCOUNT_ACTIVITIES_PAGE_SIZE ==> read + page == Matching(q, ledger.rows)
    ensures page != [] ==>
              var next := Some(page[|page| - 1].id);
              token != next && Cursor(next, Matching(q, ledger.rows), |read + page|)
  {
    ledger.PushAll(fetch.appended);
    MatchingGrows(q, old(ledger.rows), ledger.rows);
    NextPage(ledger.rows, q, token, |read|);
    page := Page(ledger.rows, q, token);
    PageExtends(Matching(q, ledger.rows), read, token, page);
  }

  /** A page taken right after what was read. */
  lemma PageExtends(matching: seq<Activity>, read: seq<Activity>, token: Option<string>, page: seq<Activity>)
    requires DistinctIds(matching) && read <= matching && Cursor(token, matching, |read|)
    requires page == matching[|read|..Min(|read| + ACCOUNT_ACTIVITIES_PAGE_SIZE, |matching|)]
    ensures |page| <= ACCOUNT_ACTIVITIES_PAGE_SIZE && read + page <= matching
    ensures |page| < ACCOUNT_ACTIVITIES_PAGE_SIZE ==> read + page == matching
    ensures page != [] ==>
              var next := Some(page[|page| - 1].id);
              token != next && Cursor(next, matching, |read + page|)
  {
    assert matching[..|read|] == read;
    assert read + page == matching[..|read| + |page|];
    assert page != [] ==> page[|page| - 1] == matching[|read| + |page| - 1];
  }

  /** Reads every matching activity, at most `maxPages` pages. */
  method GetAccountActivities(ledger: ActivityLedger, q: Query, maxPages: nat, fetches: seq<Fetch>)
    returns (read: Read)
    requires ledger.Valid() && |fetches| == maxPages
    modifies ledger
    ensures ledger.Valid() && old(ledger.rows) <= ledger.rows
    // a complete read is the plain filter of the ledger as the last fetch saw it
    ensures read.Complete? ==> read.rows == Matching(q, ledger.rows)
    ensures read != Incomplete(PaginationInvariantViolation)
    ensures read == Incomplete(FetchFailed) ==> exists f <- fetches :: f.lost
    // without lost fetches the page cap alone decides
    ensures read != Incomplete(FetchFailed) ==>
              (read.Complete? <==> |Matching(q, ledger.rows)| < maxPages * 100)
    ensures (forall f <- fetches :: f.appended == []) ==> ledger.rows == old(ledger.rows)
  {
    var rows: seq<Activity> := [];
    var token: Option<string> := None;
    for k := 0 to maxPages
      invariant ledger.Valid() && old(ledger.rows) <= ledger.rows
      invariant |rows| == k * ACCOUNT_ACTIVITIES_PAGE_SIZE
      invariant rows <= Matching(q, ledger.rows) && Cursor(token, Matching(q, ledger.rows), |rows|)
      invariant (forall f <- fetches :: f.appended == []) ==> ledger.rows == old(ledger.rows)
    {
      var page := FetchPage(ledger, q, token, rows, fetches[k]);
      if fetches[k].lost {
        return Incomplete(FetchFailed);
      }
      if page == [] {
        assert rows + page == rows;
        return Complete(rows);
      }
      var lastId := Some(page[|page| - 1].id);
      rows := rows + page;
      if |page| < ACCOUNT_ACTIVITIES_PAGE_SIZE {
        return Complete(rows);
      }
      if token == lastId {
        return Incomplete(PaginationInvariantViolation);
      }
      token := lastId;
    }
    return Incomplete(PageLimitExceeded(maxPages));
  }
}
