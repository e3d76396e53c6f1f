# A model of the Alpaca client and its stateful mocks

This project models the parts of the client library that must stay correct while many callers, the
clock and a failing server interleave, and the stateful servers the client is written against.

Time is a natural number of nanoseconds. A component that several tasks share is a step function
over its whole state, and a run is any list of actions: an action the state does not enable changes
nothing, so a statement about `Run(..., actions)` holds for every interleaving. Code that one task
runs alone, and state that an endpoint edits under its lock, is a method or a class, proved against
the step function it performs.

| component | modules |
|---|---|
| token cache: one cached token, a mint lock, a Retry-After hold | `TokenCache`, `Errors` |
| shared Retry-After hold, the retry loop under it, the issuer's calls | `Retry`, `Issuer`, `Errors` |
| send gate, traffic and last-answer scopes | `SendGate`, `Traffic` |
| paginating client over the append-only activity ledger | `Activities` |
| broker mock: orders, fills, cash, positions, USDC wallet | `Broker`, `BrokerMock`, `BrokerRuns`, `BrokerCash`, `BrokerOrders`, `BrokerWallet`, `BrokerFacts`, `Totals` |
| tokenization mock: idempotent mints, polling, executor | `Tokenization`, `TokenizationMock`, `TokenizationRuns`, `TokenizationPolls`, `TokenizationFacts` |
| deposit and redemption block scanners | `ChainScan`, `ScanRuns`, `ScanRecords`, `ScanTotals`, `Decimal` |
| market session classifier | `MarketHours` |
| PEM re-wrapping | `Pem` |

## What the model shows about the code

* The documentation of the gate (src/request_id.rs:5-8) says that after a `close` no credential mint
  starts either. The code holds the gate's lock while it hands over an API request, but a mint only
  asks under the lock and starts after dropping it. `SendGate.MintCanLeaveAfterClose` is such a run,
  and `SendGate.MintLeavesAfterCloseIffOnePending` is the exact condition.
* A block scanner keeps one entry per transaction hash, so a second matching log of one transaction is
  dropped. `ScanTotals.SecondPaymentIsDropped` is an instance, `ScanTotals.EverythingSentIsRecordedIff` the
  exact condition.
* It also skips a transaction whose hash an entry of others already carries, and mints and outgoing
  transfers carry hashes of the same chain. So a mint to the redemption wallet can hide its own transfer:
  `ScanRecords.MintToTheWalletHidesItself` is such a run, `ScanRecords.RecordedIffReadClean` and
  `ScanRecords.EntriesAreAScanIff` are the exact conditions.
* The mint executor sends the transfer again when it did not get a receipt. A completed mint deducts
  its shares once whatever happens, but moves tokens once more for each lost receipt:
  `TokenizationRuns.LostReceiptTransfersTwice` and `TokenizationRuns.CompletedMintTransferredOnceIff`.
* A throttled mint overwrites the stored hold without comparing. That is sound
  (`TokenCache.SetHoldKeepsInv`, `TokenCache.DeadlinesNeverMoveEarlier`) because the caller holds the
  lock and found the old hold elapsed.

## Model

| member | source | states |
|---|---|---|
| `TokenCache.ReachableInv` | src/auth.rs:412-478 | Every interleaving of any number of calls, cancelled where they await, keeps the invariant: one lock holder, deadlines that belong to the newest mint, a bounded hold, and every failure still enforced by the hold, by the soft deadline or by the caller that holds the lock. |
| `TokenCache.CacheServesOnlyLiveTokens` | src/auth.rs:391-426 | A token served from the cache at t was minted at some m with t < m + min(expires_in, 1 h) - 10 s; only its own minter gets a token without that check. |
| `TokenCache.OneMintInFlight` | src/auth.rs:417-426 | Two calls are never both minting. |
| `TokenCache.MintsWaitForHoldsAndRides` | src/auth.rs:432-452 | No mint starts before every hold stored earlier in the run has elapsed, nor before min(hard expiry, t + max(15 s, hint)) after a ride at t. |
| `TokenCache.NextMintWaitsAfterAFailure` | src/auth.rs:453-478 | After a mint failed at t, whatever its caller did next, no mint starts before t + the hint clamped to [15 s, 5 min] when it was throttled, nor before min(hard expiry, t + max(15 s, hint)) of the token cached then. |
| `TokenCache.RefusedMintHoldsTheNext` | src/auth.rs:453-478 | When the signer or the token endpoint answers a mint with a status and a Retry-After header, the failure on record has that status and the header cut to five minutes; after a 429 no mint starts before the header, at least 15 s and at most 5 min of it, has passed, and after any status none before max(15 s, header up to 5 min) or the hard deadline. |
| `TokenCache.UnansweredMintRidesOrFails` | src/auth.rs:453-478 | A mint without an answer, or broken on this side, sets no hold; its caller rides a token that may still be sent and gets the failure otherwise. |
| `TokenCache.GrantedMintIsCached` | src/auth.rs:528-559 | A granted mint is served to its caller and cached with hard deadline t + L - 10 s and soft deadline t + max(L - 2 min, L / 2), at most the hard one, with L = min(expires_in, 1 h). |
| `TokenCache.MintsStartThroughAnOpenGate` | src/auth.rs:449-453 | A mint starts only in the step that asked its caller's gate and found it open. |
| `TokenCache.UsableTokensAreServedAtOnce` | src/auth.rs:412-426 | A fresh token is served without the lock, and one that may still be sent without waiting for a busy lock. |
| `TokenCache.StaleTokensAreRefreshed` | src/auth.rs:412-430 | A token past its soft deadline is not served by a call that has not found the lock busy. |
| `TokenCache.FailuresMeanNoTokenToRide` | src/auth.rs:432-478 | A mint starts only when the cached token is past its soft deadline; a call fails inside a hold or after a failed mint only when the cached token is past its hard one. |
| `TokenCache.RefusalsCarryABoundedWait` | src/auth.rs:438-447 | A refusal caused by the hold carries a wait in (0, 5 min]. |
| `TokenCache.SoftDeadlineNeverPassesHard` | src/auth.rs:528-559 | In every reachable state the cache holds the newest granted mint; with L = min(expires_in, 1 h) its hard deadline is L - 10 s after the mint, and its soft one between max(L - 2 min, L / 2) after it, or the hard one if earlier, and the hard one. |
| `TokenCache.StepNeverEarlier` | src/auth.rs:455-466 | One step moves no hold deadline earlier and, for one token, neither its soft nor its hard deadline. |
| `TokenCache.DeadlinesNeverMoveEarlier` | src/auth.rs:455-494 | Between any two points of a run the hold deadline does not move earlier, and while one token stays cached its soft deadline does not either. |
| `TokenCache.SetHoldKeepsInv` | src/auth.rs:455-466 | The unconditional overwrite of the hold keeps the whole invariant. |
| `TokenCache.DeferKeepsInv` | src/auth.rs:480-495 | Deferring the refresh keeps the invariant and discharges what the failed mint owed. |
| `Errors.ThrottleHint` | src/auth.rs:671-673 | A hint is given exactly when the header is, and it is the shorter of the header and five minutes. |
| `Retry.RemainingIsLatestEnd` | src/core.rs:337-347 | While the stored pair refines the history of hints, its remaining wait at any later instant is the excess of the latest end of all hints. |
| `Retry.LatestEndIsTheMaximum` | src/core.rs:348-362 | The latest end is the maximum of t + min(hint, 5 min) over every hint recorded at t by any clone. |
| `Retry.HintRefines` | src/core.rs:351-362 | Storing a longer delay, or keeping a pair that already covers the hint, refines the history with the hint added, also when time passes between the comparison and the store. |
| `Retry.AlpacaClient.BackpressureWait` | src/core.rs:337-347 | The wait seen is exactly what the latest of all hints still asks for, at most five minutes; none is seen exactly when all have run out. |
| `Retry.AlpacaClient.HoldFor` | src/core.rs:351-362 | Adds one hint to the history, and the stored pair still refines it. |
| `Retry.AlpacaClient.WaitOutHold` | src/core.rs:294-306 | Ends although others extend the hold at every sleep; returns with every hint run out, or refuses with a wait longer than the budget left; the time slept on holds grows by exactly the budget spent. |
| `Retry.AlpacaClient.RetryAttempts` | src/core.rs:279-335 | The loop ends after at most max_retries + 1 recorded starts and at most 30 s slept on holds, never underflows its budget, and starts each attempt at least the backoff delay after the one before; see the next row for what it reports. |
| `Retry.AlpacaClient.WithRetryReporting` | src/core.rs:264-335 | Every start of an attempt is recorded with the clock and the hints known then: all of those, by any clone, had run out, and the recorded clocks and hints are those since the call began. At most 30 s are slept on holds. The call stops at the first success or final failure, and with retries left only then or inside a hold longer than the rest of its budget; `written` exactly when some attempt may have reached Alpaca; the status is that of the last API answer of the call; nothing written and no status when refused before its first attempt; exactly the hints its own attempts came back with are added to the shared history; the last-answer scope outside is as before, and the collect scope outside holds every id and the last API status. |
| `Retry.WrittenOnSeesEveryAttempt` | src/core.rs:521-530 | For a status that ends the loop, looking at the final error alone marks the call written exactly when some attempt may have reached Alpaca or got that status. |
| `Issuer.IssuerCall` | src/issuer/mod.rs:297-495 | The three issuer calls, stated by what their attempts met on the wire: a failed POST is reported written exactly when some attempt lost its answer after it could have left, or got an answer outside 400 to 499, a 408, a 400 to a mint callback or a 422 to a redeem; a read never is; the status told is that of the last answer; attempts go on exactly while they met a 429, a 5xx, a transport failure or a transient mint failure; exactly the Retry-After hints of 429 answers extend the hold all clones share. |
| `Issuer.OutcomesAgree` | src/core.rs:444-475 | What an attempt makes of the wire is a success, worth another attempt, or a throttle exactly when the wire says so. |
| `Issuer.ReachingAgrees` | src/core.rs:532-549 | An error may have reached Alpaca, or is the status the endpoint also gives after applying, exactly when the attempt may have been applied. |
| `Issuer.StatusesRetriedAndUnwritten` | src/core.rs:444-462 | An API status is retried exactly when it is 429 or 5xx, and taken for unwritten exactly when it is 4xx but not 408. |
| `Retry.OneMoreAttempt` | src/core.rs:307-311 | One more attempt never clears `written`, and the last API status is the new attempt's if it got one. |
| `Traffic.TaskLocals.Record` | src/request_id.rs:160-166 | An API answer sets the status of the active scopes and adds its id. |
| `Traffic.TaskLocals.RecordId` | src/request_id.rs:168-177 | A mint answer adds its id and touches no status. |
| `Traffic.TaskLocals.RecordAll` | src/request_id.rs:103-177 | After any answers the scopes hold all ids in order and the status of the last API answer. |
| `Traffic.LastApiStatusOfConcat` | src/request_id.rs:112-126 | The last status of two stretches is the later one's unless it had none. |
| `SendGate.RunKeepsInv` | src/request_id.rs:44-76 | Every interleaving of senders, mints and closers keeps the lock and flag invariant. |
| `SendGate.NothingLeavesAfterClose` | src/request_id.rs:56-76 | Once a close has returned, no API request is handed over and no ask finds the gate open. |
| `SendGate.CloseWaitsForSenders` | src/request_id.rs:135-151 | A close returns only after each API sender that found the gate open has handed over. |
| `SendGate.MintsAskBeforeAnyClose` | src/request_id.rs:153-158 | A mint that left had asked before the first close took effect. |
| `SendGate.MintCanLeaveAfterClose` | src/request_id.rs:153-158 | A run in which a mint leaves after a close has returned. |
| `SendGate.MintLeavesAfterCloseIffOnePending` | src/request_id.rs:153-158 | With the flag set, a mint can still leave if and only if one has asked and not left. |
| `SendGate.RefusalIsFinal` | src/request_id.rs:45-54 | When `is_open` never turns true again, every ask after a refused one is refused, so a held-back request is held back for good. |
| `SendGate.ReopenedGateAcceptsAgain` | src/request_id.rs:45-54 | Without that contract a refused ask can be followed by an accepted one. |
| `Activities.ActivityIdIsInjective` | src/broker/mock_api.rs:1998-2013 | Ledger ids never repeat, also past six digits. |
| `Activities.ActivityIdShowsItsNumber` | src/broker/mock_api.rs:1998-2013 | An id is the fixed prefix and the row's number in at least six digits. |
| `Activities.ActivityLedger.Push` | src/broker/mock_api.rs:1998-2013 | Appends one row under the next id. |
| `Activities.MatchingGrows` | src/broker/mock_api.rs:987-998 | Appending rows only extends what a query matches. |
| `Activities.MatchingIsTheFilter` | src/broker/mock_api.rs:987-998 | A row is matched as often as the ledger has it, exactly when its type is asked for or none is, and its time lies strictly between the bounds given. |
| `Activities.TokenNamesItsRow` | src/broker/mock_api.rs:999-1006 | A row's id as page token resumes right after that row. |
| `Activities.FetchPage` | src/broker/mock_api.rs:985-1020 | The page after what was read extends it inside the filtered ledger, completes it when short, and its last id is a new cursor. |
| `Activities.GetAccountActivities` | src/broker/activity.rs:88-120 | With rows appended between pages, a complete read is the in-order filter of the ledger at the last fetch; the repeated-token error never occurs; without a lost fetch the read completes exactly when the matches number fewer than 100 * max_pages. |
| `BrokerRuns.FillConserves` | src/broker/mock_api.rs:1916-1994 | One fill keeps cash plus position values, adds the signed quantity to its position and books one fee row. |
| `BrokerRuns.PollConserves` | src/broker/mock_api.rs:1838-1892 | So does every poll, in every mode and also when it fails. |
| `BrokerRuns.StepConserves` | src/broker/mock_api.rs:1289-1373 | So does every step except an accepted conversion, which still keeps the position and fee laws. |
| `BrokerRuns.PositionsAreStartPlusFills` | src/broker/mock_api.rs:1916-1994 | Over every run each equity position is its start plus the signed filled quantities of its orders, and its fee rows number its executed orders. |
| `BrokerRuns.EquityTradingKeepsCashPlusPositions` | src/broker/mock_api.rs:1962-1991 | Over every run without conversions, cash plus the sum of position market values is constant. |
| `BrokerCash.CashIsStartLessExecutedOrders` | src/broker/mock_api.rs:1932-1991 | Over every run, conversions included, cash is the start less, for each executed order, its filled quantity times its fill price cut to whole cents: minus on a buy, plus on a sell. |
| `BrokerOrders.OrdersExecuteAtMostOnce` | src/broker/mock_api.rs:1838-1929 | Between any two points of a run an order keeps its terms, never returns to new, and once it has left new its fill quantity and price are final. |
| `BrokerOrders.ClientIdsStayUnique` | src/broker/mock_api.rs:1324-1334 | In every run at most one recorded order carries a client_order_id. |
| `BrokerOrders.ClientIdNamesOneOrderForever` | src/broker/mock_api.rs:1319-1373 | Once recorded, however it was answered, an order alone carries its id for the rest of the run, and every resubmission that reaches the duplicate check is refused and changes nothing. |
| `BrokerOrders.LostAnswerStillRecords` | src/broker/mock_api.rs:1350-1373 | A placement answered 503 leaves the whole state that the same placement leaves when no answer is lost, but for the count of answers to lose; all other answers agree. |
| `BrokerFacts.PlacedAsRequested` | src/broker/mock_api.rs:1289-1373 | An equity placement is recorded exactly when the login holds, placements are not made to fail, it names a quantity and its client id is free; then with the symbol, quantity, side and client id requested, new, nothing executed. |
| `BrokerFacts.RefusedPlacements` | src/broker/mock_api.rs:1289-1334 | Why a placement is refused, in the order of the checks; only a failed login changes anything. |
| `BrokerFacts.UnpolledOrderWaits` | src/broker/mock_api.rs:1838-1892 | Over every run an order changes under its own polls only. |
| `BrokerFacts.PollFollowsTheMode` | src/broker/mock_api.rs:1812-1892 | A poll of a new order without a plan rejects it or only counts, as the mode in force says. |
| `BrokerFacts.DuePollFills` | src/broker/mock_api.rs:1838-1994 | When a fill is due at a price p, the whole quantity q is executed, or half of it before a cancellation: position, cash and book value move by it and by q * p cut to whole cents, with one fee row of ten cents; a negative cost is only counted. |
| `BrokerFacts.LaterPolls` | src/broker/mock_api.rs:1866-1892 | A partly filled order is cancelled by its next poll; a filled one stays. |
| `BrokerFacts.PlacedThenFilled` | src/broker/mock_api.rs:1350-1994 | End to end: a recorded order of q, whatever happens before its first poll, is filled whole on the happy path; a buy leaves the position q higher and cash lower by q * p cut to whole cents, a sell the reverse. |
| `BrokerOrders.OutcomesAreHandedOutEvenly` | src/broker/mock_api.rs:1336-1348 | The numbers of orders assigned each rotating outcome differ by at most one, despite refused placements and mode switches. |
| `BrokerOrders.PlannedPoll` | src/broker/mock_api.rs:1812-1892 | One poll of a planned order moves it one status along its path exactly when a fill it needs can happen. |
| `BrokerOrders.PlannedOrderKeepsItsPath` | src/broker/mock_api.rs:1812-1892 | Only its own polls move a planned order, whatever mode the server is in. |
| `BrokerOrders.PlannedOrderStaysOnPath` | src/broker/mock_api.rs:1812-1892 | Over every run a planned order is exactly as many statuses along its path as it had effective polls. |
| `BrokerWallet.CentsRoundDown` | src/broker/mock_api.rs:1624-1636 | Cutting to cents loses less than a cent and nothing from whole cents. |
| `BrokerWallet.ConversionRounds` | src/broker/mock_api.rs:1563-1693 | An accepted conversion changes cash plus USDC by less than a cent, up on a buy and down on a sell, and by zero when sized in dollars. |
| `BrokerWallet.RefusedConversionChangesNothing` | src/broker/mock_api.rs:1501-1518 | A refused conversion leaves the state unchanged. |
| `BrokerWallet.NothingElseDrifts` | src/broker/mock_api.rs:887-918 | Any other step changes cash plus positions plus USDC by exactly what came in or went out. |
| `BrokerWallet.ConversionsDriftLessThanACentEach` | src/broker/mock_api.rs:1501-1693 | A run with n conversions drifts by less than n cents, and by zero with none. |
| `BrokerWallet.UsdcNeverGoesNegative` | src/broker/mock_api.rs:887-918 | A non-negative USDC wallet stays non-negative over every run. |
| `BrokerFacts.ConversionMovesItsSize` | src/broker/mock_api.rs:1501-1693 | A conversion is accepted exactly when its size is not negative, fits six decimals of USDC or two of dollars, and a sell is covered; then USDC moves by the size and cash against it by the size cut to whole cents. |
| `BrokerFacts.WithdrawalIsCovered` | src/broker/mock_api.rs:899-918 | A withdrawal is accepted exactly when the balance covers it, lowers it by the amount, and is recorded as pending. |
| `BrokerFacts.TransferCompletesOnItsListing` | src/broker/mock_api.rs:2367-2383 | Over every run a pending transfer is processing after its first listing and complete on the one its threshold names, then under a hash. |
| `BrokerFacts.DepositIsBookedOnce` | src/broker/mock_api.rs:824-856 | A deposit under a new hash raises USDC by raw / 10^6 and is recorded complete; under a known hash nothing changes. |
| `BrokerMock.MockState.ApplyFill` | src/broker/mock_api.rs:1916-1994 | In place, takes the fill step of the value model or fails and changes nothing. |
| `BrokerMock.MockState.AdvancePolledOrder` | src/broker/mock_api.rs:1838-1892 | In place, takes the poll transition, or fails and changes nothing. |
| `BrokerMock.MockState.PollOrder` | src/broker/mock_api.rs:1739-1808 | The status endpoint: 404 exactly for an unknown order, otherwise one counted poll, answering with the order as it then is. |
| `BrokerMock.MockState.PlaceOrder` | src/broker/mock_api.rs:1289-1373 | The placement endpoint takes the placement step and gives its answer, in the source's order of checks. |
| `BrokerMock.MockState.OrderByClientId` | src/broker/mock_api.rs:1713-1733 | Finds an order with the id exactly when there is one, and with unique ids the only one. |
| `BrokerMock.MockState.HandleCryptoOrder` | src/broker/mock_api.rs:1501-1693 | A conversion in place: the converted state and answer of the value model. |
| `BrokerMock.MockState.SubtractWalletBalance` | src/broker/mock_api.rs:899-918 | Subtracts exactly when the balance suffices and changes nothing otherwise. |
| `BrokerMock.MockState.PostTransfer` | src/broker/mock_api.rs:2171-2232 | Withdraws and records a pending outgoing transfer, or refuses and changes nothing. |
| `BrokerMock.MockState.ListTransfers` | src/broker/mock_api.rs:2304-2328 | Advances every transfer once and lists them. |
| `TokenizationRuns.RunIsGood` | src/tokenization_mock.rs:373-461 | Every run of posts, reads, redemptions, settings and executor passes keeps the invariant, the place of every request and the shares law. |
| `TokenizationRuns.SharesFollowCompletedRequests` | src/tokenization_mock.rs:438-458 | The broker's shares in each symbol change by completed redemptions less completed mints. |
| `TokenizationRuns.KeyNamesOneRequestForever` | src/tokenization_mock.rs:615-669 | A key names one request for the rest of the run: posting it again changes nothing and answers with that request if the body is the same, else refuses. |
| `TokenizationRuns.SavedIndexStillNamesItsRequest` | src/tokenization_mock.rs:377-458 | When the executor takes the lock again its saved index names the very request it collected, still a waiting mint, and no other saved index does. |
| `TokenizationRuns.RequestsKeepTheirPlace` | src/tokenization_mock.rs:373-461 | An index names the same request ever after, and a settled one keeps its status. |
| `TokenizationRuns.CompletedMintTransferredOnceIff` | src/tokenization_mock.rs:419-458 | A completed mint landed once; the transfers the run sent for it are one more than those whose receipt was lost, so exactly one if and only if no action of the run sent one for it without getting its receipt. |
| `TokenizationRuns.LostReceiptTransfersTwice` | src/tokenization_mock.rs:427-436 | A run in which one completed mint moves its tokens twice. |
| `TokenizationRuns.LandIsGood` | src/tokenization_mock.rs:438-458 | Landing a receipt by the saved index keeps the invariant and the shares law. |
| `TokenizationPolls.SettlesOnItsRead` | src/tokenization_mock.rs:821-861 | A request leaves the counting phase on exactly the unfiltered read that brings its count to its threshold, whatever else happens in between; a redemption then completes, or is rejected when that is the outcome in force at that very read. |
| `TokenizationPolls.StepCounts` | src/tokenization_mock.rs:829-858 | One unfiltered read counts a request once; at its threshold a mint is due and still pending, a redemption settles by the outcome in force; no other step counts. |
| `TokenizationPolls.NeverRejectsUnlessTold` | src/tokenization_mock.rs:842-856 | A mock never told to reject redemptions rejects none. |
| `TokenizationFacts.SamePostAnswersWithTheFirst` | src/tokenization_mock.rs:615-669 | A mint under a free key is appended as asked, pending; the same body posted again at any later time answers with that request. |
| `TokenizationFacts.OtherBodyIsRefused` | src/tokenization_mock.rs:632-647 | A known key with another body is refused and nothing changes. |
| `TokenizationFacts.RedemptionIsRecordedAsSeen` | src/tokenization_mock.rs:517-551 | A transfer under a new hash becomes a pending redemption of that symbol and amount. |
| `TokenizationFacts.PassCollectsExactlyTheDueMints` | src/tokenization_mock.rs:377-416 | A pass saves exactly the due mints with a known token; due mints of an unknown token fail. |
| `TokenizationFacts.ReceiptSettlesItsMint` | src/tokenization_mock.rs:418-458 | In every run a successful receipt completes its mint with that hash and takes its shares, a reverted one fails it, and without a receipt it stays due. |
| `TokenizationFacts.AdjustedPositionIsRevalued` | src/broker/mock_api.rs:696-720 | An adjusted position has its quantity changed and is worth it at the known price; no other position changes. |
| `TokenizationMock.TokenizationState.AdjustPosition` | src/broker/mock_api.rs:696-720 | In place, the position change of the value model. |
| `TokenizationMock.TokenizationState.PostMint` | src/tokenization_mock.rs:615-669 | The mint endpoint takes the post step and gives its answer. |
| `TokenizationMock.TokenizationState.ReadRequests` | src/tokenization_mock.rs:821-876 | A read with a status filter changes nothing, one without advances every request in order; both list what the filters keep. |
| `TokenizationMock.ListedIsTheFilter` | src/tokenization_mock.rs:863-873 | The listing holds each wanted request as often as the state does and no other. |
| `TokenizationMock.TokenizationState.DetectRedemption` | src/tokenization_mock.rs:517-551 | Records a redemption unless its transaction hash is known. |
| `TokenizationMock.TokenizationState.CollectPendingMints` | src/tokenization_mock.rs:377-416 | Collects the due mints with a known token in order and fails the others. |
| `TokenizationMock.TokenizationState.ExecuteNext` | src/tokenization_mock.rs:418-458 | One transfer: nothing changes without a receipt; with one, the request at the saved index settles. |
| `ChainScan.ScanLogsRecordsFirstMatch` | src/tokenization_mock.rs:487-552 | The logs of one transaction record its first match unless the hash is known. |
| `ChainScan.WhatMatches` | src/broker/mock_api.rs:812-822 | A deposit is a Transfer of USDC from the sender to the account; a redemption a Transfer of a known token to the wallet. |
| `ChainScan.Watcher.ScanBlock` | src/broker/mock_api.rs:790-860 | Processes a prefix of the block, all of it exactly when every call it makes is answered, and raises the USDC balance by exactly the recorded raw values / 10^6; without a deposit address the block counts as processed and nothing is recorded. |
| `ChainScan.Watcher.ScanRange` | src/broker/mock_api.rs:864-879 | Succeeds exactly when every block was fully processed, and has processed a prefix of the range otherwise. |
| `ChainScan.Watcher.Tick` | src/tokenization_mock.rs:218-247 | Moves past the range exactly when its scan succeeded and leaves all of it to the next tick otherwise. |
| `ScanRecords.SuccessfulScanIsComplete` | src/tokenization_mock.rs:470-585 | Once a pass has finished the highest block any pass aimed at, the entries are those of one failure-free scan of the range if and only if each of its matching transactions was read at some time while no entry of a mint or an outgoing transfer held its hash; then the wallet has gained exactly their total / 10^6; they are in chain order when none was hidden at its first read. |
| `ScanRecords.EntriesAreAScanIff` | src/tokenization_mock.rs:470-585 | In every reachable state, whatever calls failed, was rescanned or added, and also when the reported head goes back, the entries are among those of one failure-free scan of a prefix that covers every finished block, none twice, and all of them under exactly the same condition. |
| `ScanRuns.TickIsARun` | src/broker/mock_api.rs:750-778 | A tick of the in-place watcher, failed or not, is a run of the steps those laws are about: same entries, last block and wallet. |
| `ScanRecords.FoundIffReached` | src/tokenization_mock.rs:522-531 | While the entries are in order, a transaction of the chain is recorded exactly when it was reached and matches. |
| `ScanRecords.RecordedIffReadClean` | src/tokenization_mock.rs:517-551 | Over every run a transaction is recorded exactly when it matches and some pass read it while no entry of others held its hash. |
| `ScanRecords.InOrderThroughoutIff` | src/tokenization_mock.rs:470-585 | The entries are those of a failure-free scan, in chain order, at every moment of a run if and only if no matching transaction was first read while an entry of others held its hash. |
| `ScanRecords.HarmlessHashesHideNothing` | src/broker/mock_api.rs:656-670 | Nothing is hidden when the hashes of mints and outgoing transfers are those of transactions the filter does not match. |
| `ScanRecords.MintToTheWalletHidesItself` | src/tokenization_mock.rs:438-441 | A run in which the executor stores the hash of a mint to the redemption wallet first, and the finished scan has recorded nothing. |
| `ScanRuns.WalletIsStartPlusRecorded` | src/broker/mock_api.rs:834-842 | In every reachable state the USDC balance is its start plus the recorded raw values / 10^6. |
| `ScanTotals.ExpectedHashesAreDistinct` | src/tokenization_mock.rs:522-531 | No transaction is recorded twice. |
| `ScanTotals.EverythingSentIsRecordedIff` | src/broker/mock_api.rs:812-856 | What is recorded equals what was sent if and only if no transaction pays twice. |
| `ScanTotals.SecondPaymentIsDropped` | src/broker/mock_api.rs:824-832 | A transaction with two payments of which one is recorded. |
| `Decimal.UsdcPrinterIsExact` | src/broker/mock_api.rs:2415-2436 | Reading the printed amount back gives exactly raw / 10^6, and no zero trails the point. |
| `Decimal.UsdcAmount` | src/broker/mock_api.rs:834-838 | The amount booked for a deposit of raw millionths is raw / 10^6. |
| `MarketHours.SessionAndCloseAt` | src/broker/market_hours.rs:156-279 | With answers in any order and extra later days, the classification is the interval specification's and reports the closing times of that session; it fails exactly when an earlier date is answered or a session time of a trading day names no single instant; on the last date of the calendar it is closed. |
| `MarketHours.NightlyChangesNeverMatter` | src/broker/market_hours.rs:359-368 | A clock change before 04:00 leaves every session time of an ordered trading day resolvable. |
| `MarketHours.OvernightIsItsInterval` | src/broker/market_hours.rs:208-252 | Overnight is exactly [20:00 of D-1, 04:00 of D) for each trading day D. |
| `MarketHours.OvernightAgreesAcrossMidnight` | src/broker/market_hours.rs:208-252 | The evening and the morning leg are both overnight or neither is. |
| `MarketHours.MarketSessionStatusAt` | src/broker/market_hours.rs:103-131 | The status has the session and its opening and closing times; the lookahead is used in the extended session only; when it can be asked and read, an ordinary gap is reported exactly when 20:00 to 24:00 is overnight, and otherwise that evening is closed. |
| `MarketHours.GapMatchesTheEvening` | src/broker/market_hours.rs:312-357 | For every day and full lookahead answer the gap agrees with the session of that evening. |
| `MarketHours.IsMarketOpenAt` | src/broker/market_hours.rs:372-380 | Open exactly within the regular hours of a trading day; fails exactly when the classification does. |
| `Pem.RewrappedBlockBody` | src/auth.rs:708-723 | The body between the markers, without white space, in the reference layout; none exactly without a begin marker. |
| `Pem.BodyLiesBetweenTheMarkers` | src/auth.rs:709-713 | The body is what lies between the first begin marker and the first end marker after it. |
| `Pem.UnendedBodyIsTheRest` | src/auth.rs:710-713 | Without an end marker the body is all the rest. |
| `Pem.BlanksVanish` | src/auth.rs:715-716 | Space, tab, carriage return and line feed are dropped, base64 characters kept. |
| `Pem.WrappingKeepsCharacters` | src/auth.rs:714-721 | Wrapping keeps exactly the characters in order and adds line feeds only. |
| `Pem.WrappedLinesAreFull` | src/auth.rs:714-721 | All lines hold 64 characters but a last one of 1 to 64, as section 2 of RFC 7468 asks. |
| `Pem.RewrappingIsIdempotent` | src/auth.rs:708-723 | Rewrapping a normalized block returns the same body, for any end marker that holds a space. |
| `Pem.KeyBlocksRewrapToThemselves` | src/auth.rs:346-372 | So it does for the SEC1 and PKCS#8 markers, including a body relabelled from one to the other. |

## Left out

- HTTP, JSON and header handling, URL parsing, request validation answers (400) and response bodies: library behaviour or single checks.
- Cryptography and key parsing: a mint is an oracle that grants any `expires_in` or fails with any status and hint.
- The token cache and the send gate are values stepped by actions, not objects: their content is what all interleavings keep, so update in place and lock poisoning are not modelled.
- Overflow of clock arithmetic: time and durations are unbounded, so the `checked_add` fallback of `defer_next_refresh` never applies; the poll counters are unbounded too.
- `Issuer.IssuerCall`: the refusal of a redeem on an unlisted network, before any attempt, is not modelled; request bodies and idempotency headers are not either.
- Jitter and backoff values: any jitter is allowed, and the backoff iterator is any sequence of delays.
- `Float` arithmetic errors and rounding: amounts are exact reals. The unsigned fixed-point conversion is taken to refuse negative values, which makes a negative cost or size an arithmetic error.
- Orders, transfers and requests have fresh ids: random identifiers are parameters, and a placement under an id in use does not occur.
- The activity endpoint takes its query already parsed; the comma-joined types and the RFC 3339 times are not modelled. A page is 100 rows, as the client asks for.
- Time zone rules: the classifier works in local date and time of day, and takes the skipped or repeated hours of a day and the last date as inputs; converting a resolvable time to UTC is not modelled.
- `buying_power`, snapshots, asset, quote, calendar, whitelist and wallet read endpoints of the broker mock: easy members only.
- `push_activity` may add rows of any type, fee rows included, and is not an action of the broker runs, so the fee count speaks of rows that fills booked; the ledger of the pagination result takes any rows.
- `set_wallet_usdc_balance`, `set_transfer_tx_hash` and the transfer read by id are not actions of the broker runs; the scanner runs include rehashing of foreign entries.
- A deposit address is set or unset for a whole run of the scanner; setting it in between, after which blocks already passed stay unscanned, is not modelled.
- `ScanRecords.SuccessfulScanIsComplete`: takes the chain to be immutable, and steps a scan one transaction at a time, so an entry of others that changes its hash between two logs of one transaction is not modelled; hashes of others change only as new transfers and mints get theirs.
- `set_request_status`, the manual override of the tokenization mock, bypasses its state machine on purpose.
- `TokenizationRuns.SharesFollowCompletedRequests`: speaks of quantities over runs; the revaluation of a position is stated for one adjustment, and the empty symbol, which the code never adjusts, is excluded.
- An injected request may have any poll threshold here; the code uses the largest one.
- The network a mint names is neither stored nor compared, as the code does not compare it either.
- The lookup of a mint by client request id, `tx_hash` rendering and the redemption amount's 18-decimal decoding are not modelled beyond whether it succeeds.
- The gateway, the SSE decoder, corporate actions, journals, market data, conversion and wallet polling clients are not part of this model.
