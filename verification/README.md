# Zia's money path, verified

A Dafny model of the part of Zia, a payment switch, that moves money, with proofs about it:

- **The switch.** Creation of a payment intent, webhook handling and the delayed provider query run
  concurrently, without transactions, over the intent, attempt and ledger tables and the
  idempotency cache. `Switch` splits them at every database and provider call into steps of
  threads. The environment chooses the interleaving, every answer of a provider, which webhook
  arrives and how often, which thread stops for good, and which cache entry disappears.
  `SwitchSafety`, `SwitchFinality`, `SwitchAsCoded`, `SwitchExact`, `SwitchRaces`, `SwitchAtomic`,
  `Idempotency` and `SwitchMirror` state what holds.
- **The ledger.** `Ledger` holds the entry table, the row-by-row insert that may stop half way, the
  int64 validation and the five posting groups; `TornPosts` runs any number of posts interleaved and
  interrupted; `Accounts` is the name formatter and the argument that names keep money apart.
- **The operations one at a time.** `Repository`, `Orchestrator` and `Settlement` are classes over
  the tables, with a database connection that may refuse any statement; `Books` proves that runs of
  their operations keep the books in order, and `SwitchBooks` that a thread of the switch left alone
  does what the atomic operation does.
- **The guards.** `Risk` (sliding window), `Breaker` and `Routing`, each against a specification over
  the history of calls.
- **Three independent pieces.** `DeepMerge` (in-place merge of map objects), `Reconciliation` with
  the `Paystack` unit conversion, `Fees`.

A table is a sequence of rows and a row's index is its identifier. `Sums.Sum` is the one fold behind
every balance and total.

## How the switch is meant to be read

Three groups of theorems belong together.

1. *Isolated runs* (`SwitchSafety`, `SwitchFinality`, `SwitchMirror`). If no other thread changes an
   intent's status between a webhook's read of the intent and its write, success is final, a
   collection is posted at most once, and the ledger mirrors the payments. Running read, check and
   write as one step is one way to meet that condition (`SwitchAtomic.AtomicIsIsolated`). Duplicates,
   reordering, crashes and the delayed query need no assumption.
2. *As coded* (`SwitchAsCoded`, `SwitchExact`). With no assumption at all: once creation has returned
   and the intent has an outcome, it keeps one of the two outcomes; which one, how often it is
   collected and whether its rows change depends on the webhooks already past their check, and
   `SwitchExact` says exactly how.
3. *Why the assumption is needed* (`SwitchRaces`). From every state in which an intent waits for its
   outcome, runs exist that collect twice, or collect and end in `failed`; and such states are
   reachable for every admitted request.

## What turned out not to hold

Each of these is a theorem here, with the condition under which the code does meet the expectation.

- *A webhook is processed once.* Two overlapping webhooks collect twice, or collect and fail
  (`SwitchRaces.TwoCollections`, `SwitchRaces.CollectedButFailed`). At most one collection is ever
  begun exactly when the intent has its outcome, and the collections begun and the handlers that may
  begin one are at most one together (`SwitchExact.CollectedOnceIff`); in isolated runs always.
- *An outcome is final.* Once creation has returned, `succeeded` is final exactly when no webhook is
  past its check for `failed`, and `failed` exactly when none is past its check for `succeeded`
  (`SwitchExact.OutcomeStaysIff`). While creation is under way its own last write revives `failed` too
  (`SwitchExact.FailedIsFinalIff`, `SwitchRaces.LateWriteIsReachable`).
- *An accepted charge is recorded.* It is exactly as long as creation is about to record the
  provider's answer; when it stops before, the intent stays `created`, with no attempt for a webhook to
  find (`SwitchExact.LostChargeIff`, `SwitchExact.LostChargeIsReachable`).
- *Redelivery repairs a lost posting.* A collection can still become complete exactly when the thread
  that wrote `succeeded` has not stopped before its last row (`SwitchFinality.RepairableIff`); such
  stops are reachable after any number of rows (`SwitchFinality.AbandonedIsReachable`). Without
  isolation the rows are final exactly when no webhook is past its check and no handler is posting
  (`SwitchExact.RowsAreFinalIff`).
- *Replaying an idempotency key returns the original result* (`readme.md:337`). It can exactly when
  the entry is in the cache at the lookup (`Idempotency.ReplayReturnsOriginalIff`). After the entry is
  lost, or when two calls race, the later insert meets the unique index and the caller gets an error
  (`Idempotency.Stuck`, `Idempotency.LostReplayIsReachable`); the money is still charged at most once.
- *`validateBalanced` accepts only balanced lists.* It adds in int64 and accepts every list whose nets
  are multiples of 2^64 (`Ledger.AcceptedIff`, `Ledger.AcceptedOverflow`). No list of this program is
  one: the engine's own all balance (`Ledger.PairedAccepted`).
- *The breaker opens at its threshold.* It does not record the time of a provider's first failure and
  never opens on it: it meets its history specification exactly for thresholds of at least two
  (`Breaker.RefinesHistoryIff`). In this program it never opens at all: nothing records a failure.
- *A merchant never loses on a payment.* The net is negative exactly when the amount is below the
  minimum fee (`Fees.NetNonNegativeIff`).
- *A Paystack amount survives the conversion.* It does exactly when its hundredfold fits an int64
  (`Paystack.RoundTripIff`), as every amount the risk check admits does (`Paystack.AdmittedSurvives`).
- *The rail pays a balance once.* A failed posting is swallowed after the rail has paid, and the next
  run pays again (`Settlement.Runner.PaidTwice`). What the rail pays stays within the starting balance
  when every payout row and the first row of every payout's post went in, and beyond that exactly as
  long as what was never booked is at most what is left (`Settlement.RailPaysOnce`).
- *Skipped merchants are counted.* The run's count of them stays zero; merchants below the minimum
  count as settled (`Settlement.Runner.Settle`).

## Model

| member | source | states |
|---|---|---|
| SwitchSafety.SucceededForever | internal/orchestrator/engine.go:430-453 | in every isolated run an intent that has succeeded stays succeeded, whatever webhooks, queries, crashes and late writes follow |
| SwitchSafety.CollectedOnceIffSucceeded | internal/orchestrator/engine.go:455-474 | at the end of every isolated run an intent's ledger rows are a prefix of one collection of its own amount, fee and provider; none without success; all of it exactly when the thread that wrote the success has run to its end, whatever any other thread did |
| SwitchSafety.StatusFollowsTable | internal/orchestrator/engine.go:327-332 | every status change is an edge of the table, except creation's own late write over `failed`; it never meets `succeeded` |
| SwitchSafety.SafeStep | internal/orchestrator/engine.go:358-501 | the composed invariant over threads, intents, attempts and ledger survives every step of an isolated run |
| SwitchFinality.RepairableIff | internal/orchestrator/engine.go:451-470 | the collection of a succeeded intent is or can still become complete exactly when the thread that wrote the success has not stopped before its last row |
| SwitchFinality.NeverRepaired | internal/webhook/processor.go:134-143 | after such a stop no redelivery, query or late write adds a row: the partial collection stays as it is in every isolated run |
| SwitchFinality.AbandonedIsReachable | internal/repository/ledger.go:24-37 | from the empty database every valid request can end with its collection cut off after any number of rows short of all |
| SwitchFinality.CompleteIsReachable | internal/orchestrator/engine.go:358-501 | an atomic run from the empty database posts a full collection |
| SwitchFinality.FailedForeverIff | internal/orchestrator/engine.go:327-332 | in isolated runs: a failed intent stays failed exactly when its creation is not about to make its own last status write (`SwitchExact.FailedIsFinalIff` is the condition without isolation) |
| SwitchAtomic.AtomicIsIsolated | internal/orchestrator/engine.go:376-451 | runs in which each webhook's read, check and write are consecutive, or cut short, are isolated |
| SwitchBooks.WebhookAlone | internal/orchestrator/engine.go:358-501 | an uninterrupted webhook thread of the step-split switch leaves the tables of the atomic confirmation: success of a waiting intent, failure of a created or waiting one, spelled out row by row, and nothing otherwise |
| SwitchBooks.DeliveryAlone | internal/orchestrator/engine.go:366-376 | from its lookup on, for an attempt with the event's provider and reference |
| SwitchBooks.QueryAlone | internal/orchestrator/engine.go:511-628 | an uninterrupted delayed query whose intent still waits does the same |
| SwitchBooks.CreationAlone | internal/orchestrator/engine.go:210-348 | an uninterrupted creation leaves the tables of the atomic one, its intent and attempt rows spelled out for each answer |
| SwitchAsCoded.OutcomeForever | internal/orchestrator/engine.go:430-464 | without isolation: after creation returned and an outcome is written, the outcome stays in {succeeded, failed} and later collection groups are bounded by the webhooks past their check for success and the handlers before their first row |
| SwitchAsCoded.LateReaderIsHarmless | internal/orchestrator/engine.go:516-523 | a webhook or query that reads the intent after that changes no table |
| SwitchAsCoded.RowsInCurrency | internal/ledger/engine.go:35-91 | in every run each ledger row names an intent and is in that intent's currency |
| SwitchAsCoded.QueryScheduledIff | internal/orchestrator/engine.go:340-342 | a delayed query starts exactly when creation has written `requires_action` for M-Pesa |
| SwitchExact.CollectionsAtMostIff | internal/orchestrator/engine.go:430-464 | without isolation, once creation returned and an outcome is written: no run ever begins more than n collections exactly when those begun and the handlers that may begin one now are at most n together |
| SwitchExact.CollectedOnceIff | internal/orchestrator/engine.go:376-464 | an intent that waits or has its outcome is collected at most once in every run exactly when it has its outcome and that count is at most one |
| SwitchExact.OutcomeStaysIff | internal/orchestrator/engine.go:430-453 | each of the two outcomes stays in every run exactly when no webhook is past its check for the other |
| SwitchExact.FailedIsFinalIff | internal/orchestrator/engine.go:266-332 | `failed` stays in every run, at any point of creation, exactly when creation is not about to make its own last write and no webhook is past its check for success |
| SwitchExact.RowsAreFinalIff | internal/orchestrator/engine.go:574-596 | the rows of an intent with an outcome, none, some or all of a collection, never change exactly when no webhook is past its check for success and no handler is posting; delayed queries do not matter |
| SwitchExact.LostChargeIff | internal/orchestrator/engine.go:259-310 | a collection request that no attempt and no status records stays unrecorded, the intent `created`, exactly when creation is no longer about to record its answer |
| SwitchExact.LostChargeIsReachable | internal/orchestrator/engine.go:259-303 | every valid request can be accepted by the provider and never recorded |
| SwitchRaces.TwoCollections | internal/orchestrator/engine.go:376-464 | from every waiting state a run begins two collections: the isolation is needed |
| SwitchRaces.CollectedButFailed | internal/orchestrator/engine.go:376-464 | from every waiting state a run begins a collection and ends in `failed` |
| SwitchRaces.LateWriteRevivesFailed | internal/orchestrator/engine.go:320-332 | a failure written before creation's last write is overwritten by it |
| SwitchRaces.WaitingIsReachable | internal/orchestrator/engine.go:88-348 | every admitted request reaches a waiting state, so the races are reachable from the empty database |
| SwitchRaces.LateWriteIsReachable | internal/orchestrator/engine.go:308-332 | from the empty database every valid request can fail and be revived by creation's late write |
| SwitchMirror.LedgerMirrorsPayments | internal/orchestrator/engine.go:604-610 | when no success is half posted, every account's balance is the sum over succeeded intents of what each owes it; threads that wrote no success may have stopped anywhere |
| SwitchMirror.BalanceByIntent | internal/repository/ledger.go:85-91 | every balance splits into the balances of the rows of single intents |
| Idempotency.OneIntentPerKey | internal/orchestrator/engine.go:89-106 | for any interleaving and any cache losses: at most one row and one provider request per merchant and key, and all results name the same intent |
| Idempotency.ChargedAtMostOnce | internal/orchestrator/engine.go:210-259 | from a state without the row, at most one collection request is issued for the key along any run |
| Idempotency.ReplayReturnsOriginalIff | internal/orchestrator/engine.go:89-106 | a replay of a key whose intent exists can return a result exactly when the entry is in the cache at its lookup, and then the result is the original intent |
| Idempotency.Stuck | internal/repository/paymentintent.go:47-57 | a call past its lookup while the row exists never returns a result, in any run: the unique index refuses it |
| Idempotency.LostReplayIsReachable | internal/idempotency/store.go:45-53 | from the empty database every valid keyed request can be answered, forgotten by the cache and then replayed without an answer |
| Switch.BaseStep | migrations/000001_init.up.sql:39-40 | every step keeps unique keys, one attempt per intent, one request per intent, and cache entries that name the right row |
| Switch.CacheKeyInjective | internal/idempotency/store.go:28-43 | without colons in merchant identifiers the cache key determines merchant and key |
| Switch.CacheKeyCollisionIff | internal/idempotency/store.go:29 | keys collide exactly when they are the same, or the longer merchant identifier is the shorter one, a colon and a tail taken from the key |
| Books.BooksBalance | internal/orchestrator/engine.go:455-464 | after any sequence of atomic creations, confirmations and payouts every account's balance equals what succeeded intents and payouts owe it, and attempts agree with intents |
| Books.ConfirmedAgreed | internal/orchestrator/engine.go:410-453 | a confirmation keeps attempt and intent status equal on both sides, one attempt per intent, and no success without an attempt |
| Books.ConfirmedMirror | internal/ledger/engine.go:35-91 | a confirmation keeps every balance equal to what intents, attempts and payouts owe |
| Books.PaidOutMirror | internal/settlement/runner.go:127-161 | a payout keeps in-transit equal to the pending payouts, operating to the succeeded ones, available net of all payouts |
| Orchestrator.Engine.CreatePaymentIntent | internal/orchestrator/engine.go:88-348 | the whole new state: a new intent only for an admitted request with an unknown and free key, its row with the request's own merchant, key, amount and currency, its attempt with the provider's reference, both with the status the answer gives, requested from a registered provider that routing offers for this request; nothing when the key is known; each way it can error; cache update; distinct keys and books in order are kept |
| Orchestrator.Engine.Admit | internal/orchestrator/engine.go:115-180 | a provider comes out exactly when the risk check passes and routing offers a registered one, and it is one routing offers |
| Orchestrator.Engine.Place | internal/orchestrator/engine.go:192-348 | an admitted request with a free key leaves one intent as the provider's answer decides, or, without a failed write, nothing |
| Orchestrator.Engine.WriteOutcome | internal/orchestrator/engine.go:447-474 | attempt, intent and collection after a checked outcome; even after a failed statement ledger rows imply success |
| Orchestrator.Engine.HandleWebhookEvent | internal/orchestrator/engine.go:358-501 | "succeeded" for a waiting intent marks intent and attempt succeeded and posts the collection, "failed" for a created or waiting one marks both failed, neither changes anything else; no other report posts a row, and an unknown status is an error without a change; a lookup misses only on a fault, an unknown reference or an attempt with that reference and no intent; books stay in order |
| Orchestrator.Engine.DelayedQuery | internal/orchestrator/engine.go:511-628 | "succeeded" and "failed" mark a waiting intent and its attempt so unless a statement faults; nothing else changes a table, and only "succeeded" posts |
| Orchestrator.IdempotencyStore.Store | internal/idempotency/store.go:45-53 | what is stored answers for 24 hours and not longer, or not at all when the cache does not hear it |
| StateTable.SuccessIsForever | internal/orchestrator/state.go:5-10 | on every path of the table only refund statuses follow success |
| Repository.IntentRepo.Create | internal/repository/paymentintent.go:47-57 | appends the row unless the statement faults or a row has the same merchant and the same key; distinct keys stay distinct |
| Repository.IntentRepo.GetByID | internal/repository/paymentintent.go:59-73 | returns the row, or an error when it is missing or the statement faults |
| Repository.IntentRepo.UpdateStatus | internal/repository/paymentintent.go:75-80 | writes the status whatever it was; a missing row is no error |
| Repository.IntentRepo.UpdateStatusSafe | internal/repository/paymentintent.go:82-90 | writes exactly when the status is the expected one and reports whether it did |
| Repository.AttemptRepo.Create | internal/repository/attempt.go:40-51 | appends the attempt unless the statement faults |
| Repository.AttemptRepo.GetByID | internal/repository/attempt.go:53-67 | returns the attempt, or an error when it is missing or the statement faults |
| Repository.AttemptRepo.GetByPSPReference | internal/repository/attempt.go:69-83 | finds some attempt with the reference whenever there is one; references are not unique |
| Repository.AttemptRepo.UpdateStatus | internal/repository/attempt.go:99-104 | changes one attempt's status and nothing else |
| Repository.PayoutRepo.Create | internal/repository/payout.go:24-32 | appends the payout unless the statement faults |
| Repository.PayoutRepo.UpdateStatus | internal/repository/payout.go:71-76 | changes one payout's status and nothing else |
| Ledger.ValidateBalanced | internal/ledger/engine.go:223-239 | accepts exactly the lists whose int64 net is zero in every currency, whatever order the map is walked in |
| Ledger.AcceptedIff | internal/ledger/engine.go:224-238 | accepted exactly when every currency's net is a multiple of 2^64 |
| Ledger.AcceptedWhenFits | internal/ledger/engine.go:224-238 | when the nets fit an int64, accepted exactly when debits equal credits per currency |
| Ledger.AcceptedOverflow | internal/ledger/engine.go:224-238 | a list of positive int64 amounts with 2^64 of excess debit is accepted |
| Ledger.AcceptedAnyOrder | internal/ledger/engine.go:223-239 | the verdict does not depend on the order of the entries |
| Ledger.PairedAccepted | internal/ledger/engine.go:216-221 | every list of debit-credit pairs of equal amount is accepted, so no post of the engine is refused |
| Ledger.PairedNet | internal/ledger/engine.go:42-88 | a group stopped after any prefix is off balance by exactly the open debit |
| Ledger.CollectionEffect | internal/ledger/engine.go:35-91 | a collection changes the merchant, fee and clearing balances by net, fee and minus the amount, and no other account |
| Ledger.PairEffect | internal/ledger/engine.go:125-152 | one movement changes its two accounts by the amount and no other account |
| Ledger.ReversalUndoesInit | internal/ledger/engine.go:183-210 | a payout started and reversed leaves every balance as it was |
| Ledger.PayoutEffects | internal/ledger/engine.go:125-210 | what the start, completion and reversal of a payout do to every account |
| Ledger.RefundEffect | internal/ledger/engine.go:93-123 | what a refund does to every account |
| Ledger.RefundKeepsFee | internal/ledger/engine.go:93-123 | a full refund undoes a collection except for the fee |
| Ledger.BalanceByName | internal/repository/ledger.go:85-91 | selecting rows by account name is selecting the account's rows |
| Ledger.LedgerRepo.InsertEntries | internal/repository/ledger.go:24-37 | exactly the prefix before the first refused row goes in, and success means all of it |
| Ledger.LedgerRepo.ReadBalance | internal/repository/ledger.go:85-91 | returns the signed sum over the account's rows |
| Ledger.LedgerEngine.PostBalanced | internal/ledger/engine.go:216-221 | a refused list leaves no row; an accepted one goes in up to the first refused row |
| Ledger.LedgerEngine.PostCollection | internal/ledger/engine.go:35-91 | appends a prefix of the collection group, all of it on success; the fee pair only for a positive fee; every row is in the given currency and refers to the given row |
| Ledger.LedgerEngine.PostRefund | internal/ledger/engine.go:93-123 | appends a prefix of the refund group, all of it on success; every row is in the given currency and refers to the given row |
| Ledger.LedgerEngine.PostPayoutInit | internal/ledger/engine.go:125-152 | appends a prefix of available-to-in-transit, all of it on success; every row is in the given currency and refers to the given row |
| Ledger.LedgerEngine.PostPayoutComplete | internal/ledger/engine.go:154-181 | appends a prefix of in-transit-to-operating, all of it on success; every row is in the given currency and refers to the given row |
| Ledger.LedgerEngine.PostPayoutReversal | internal/ledger/engine.go:183-210 | appends a prefix of in-transit-to-available, all of it on success; every row is in the given currency and refers to the given row |
| TornPosts.TornPostsOnlyOverDebit | internal/repository/ledger.go:24-37 | at every moment of every interleaving of interrupted posts debits are at least credits per currency, and the excess is the sum of open debits |
| TornPosts.EngineOnlyOverDebits | internal/ledger/engine.go:42-207 | the same for whatever the engine's five posts begin, balanced once they have run to their end |
| TornPosts.CompletePostsBalance | internal/ledger/engine.go:216-239 | when every post has run to its end debits equal credits in every currency |
| TornPosts.BalancesSumToZero | internal/repository/ledger.go:85-91 | the balances of all accounts sum to minus the open debits, to zero after completed posts |
| Accounts.FormatAccount | internal/ledger/accounts.go:27-38 | replaces every placeholder left to right; one placeholder fills exactly the reserved length |
| Accounts.FormatSplit | internal/ledger/accounts.go:27-38 | a template with one placeholder becomes prefix, identifier, suffix, whatever the identifier contains |
| Accounts.NameInjective | internal/ledger/engine.go:241-250 | two accounts share a name exactly when they are the same account, across all families |
| Accounts.NamesWritten | internal/ledger/accounts.go:3-25 | the six families of names as the database has them |
| Fees.PercentageExact | internal/orchestrator/engine.go:503-504 | on admitted amounts the product never leaves int64 and the fee is the exact truncated percentage |
| Fees.FeeIsLarger | internal/orchestrator/engine.go:503-509 | the fee is the larger of the minimum and the percentage rounded down |
| Fees.FeeMonotone | internal/orchestrator/engine.go:503-509 | a larger admitted amount never pays a smaller fee |
| Fees.NetNonNegativeIff | internal/orchestrator/engine.go:505-507 | the net is non-negative exactly when the amount reaches the minimum fee |
| Fees.FeeTotals | internal/orchestrator/engine.go:503-509 | over n payments above the minimum, truncation loses between 0 and 99 hundredths each |
| Settlement.Runner.Settle | internal/settlement/runner.go:51-78 | the log accounts for every change of an available balance; each distinct merchant is skipped below the minimum or paid its starting balance or the maximum, above neither; books stay in order; the skipped counter stays zero |
| Settlement.Runner.SettleMerchant | internal/settlement/runner.go:80-171 | skipped exactly when the balance was read below the minimum; a payout is the balance or the maximum and above neither; its row and ledger rows; what can cause an error, which without a failed write changes nothing; and, whatever failed, what the rail was sent and what the ledger took for it, statement by statement |
| Settlement.Runner.SettleRuns | cmd/cron/main.go:99 | repeated runs: each balance is what the policy leaves after the runs in which the merchant did not fail, between zero and the start, and below the minimum once those runs times the maximum reach the start; a merchant fails only for a stated reason; and without a fault the rail pays each merchant at most its starting balance; no payout is above the maximum |
| Settlement.RailPaysOnce | internal/settlement/runner.go:118-150 | over any runs, failed writes included: what the rail paid is what left the balance and what was never booked; it exceeds the starting balance exactly when more than the remaining balance was never booked |
| Settlement.Runner.PaidTwice | internal/settlement/runner.go:146-150 | one failing statement, the first row of a payout's post, makes two turns pay the same balance twice |
| Settlement.Runner.SelectRail | internal/settlement/runner.go:173-191 | some connector that pays out in the currency, or the empty name when there is none |
| Settlement.RunLeaves | internal/settlement/runner.go:61-72 | after a run each merchant's balance is one step of the policy further, or unchanged if it failed |
| Settlement.Drains | internal/settlement/runner.go:87-98 | the policy itself reaches rest in that many steps and then pays nothing |
| Settlement.Conserved | internal/settlement/runner.go:95-98 | paid total plus remainder equals the start, and the balance stays between zero and the start |
| Settlement.DefaultPays | internal/settlement/runner.go:46-49 | the default policy on every balance |
| Risk.RiskEngine.CheckVelocity | internal/risk/engine.go:60-82 | accepts exactly when fewer than the maximum accepted checks lie in the window, and keeps exactly the accepted history of the window |
| Risk.RiskEngine.RateLimited | internal/risk/engine.go:60-82 | any half-open interval of one window length holds at most the maximum of accepted checks of a key |
| Risk.RiskEngine.Evaluate | internal/risk/engine.go:36-58 | the exact condition of acceptance; a request the email limit refuses has used a slot of the phone; no other key's history changes |
| Risk.SpreadBoundsCount | internal/risk/engine.go:64-80 | spread accepted times put at most the maximum into any interval of one window length |
| Risk.Checked | internal/risk/engine.go:67-81 | both outcomes of a check keep the pruned lists equal to the history in every window still to come |
| Breaker.RefinesHistory | internal/routing/circuitbreaker.go:39-101 | with fixed configuration and threshold at least two: refuses exactly when threshold failures followed the last reset and the latest lies within the cooldown |
| Breaker.RefinesHistoryIff | internal/routing/circuitbreaker.go:43-54 | that holds for all histories and times exactly when the threshold is at least two |
| Breaker.CooldownAlwaysReadmits | internal/routing/circuitbreaker.go:94-98 | whatever the threshold, after a failure-free stretch longer than the cooldown the next check admits |
| Breaker.StreakTrips | internal/routing/circuitbreaker.go:56-66 | threshold failures in a row trip the breaker whatever came before |
| Breaker.StateCounts | internal/routing/circuitbreaker.go:56-66 | counter and flag equal the failures since the last reset and whether they reach the threshold |
| Breaker.CooldownIsFrozen | internal/routing/circuitbreaker.go:43-55 | a provider keeps the cooldown configured when it first failed, whatever is configured later |
| Breaker.CircuitBreaker.RecordFailure | internal/routing/circuitbreaker.go:39-67 | the new state is that of the history with one failure more |
| Breaker.CircuitBreaker.RecordSuccess | internal/routing/circuitbreaker.go:69-79 | the new state is that of the history with a success |
| Breaker.CircuitBreaker.IsAvailable | internal/routing/circuitbreaker.go:81-101 | answers as the history says, and the lazy reset changes no provider's answer at the same time |
| Breaker.CircuitBreaker.SetConfig | internal/routing/circuitbreaker.go:33-37 | changes one provider's configuration and no answer |
| Routing.Engine.Route | internal/routing/engine.go:81-146 | sound and complete: the first enabled rule whose four fields are each empty or the request's and whose primary is not excluded decides under the breaker as it stood, fallbacks filtered in rule order; no rule exactly when there is none |
| Routing.KeepFilters | internal/routing/engine.go:115-120 | the fallbacks kept are a subsequence of the rule's, each as often as it is named there when not excluded and admitted, and otherwise not at all |
| Routing.DefaultRouting | internal/routing/engine.go:62-79 | under the default rules M-Pesa is offered exactly for mpesa_stk in KES and Paystack exactly for cards, while the breaker admits them |
| Routing.OffersIff | internal/routing/engine.go:86-127 | the decision is unique: the providers a request is offered are exactly those of the result |
| Routing.PickConnector | internal/orchestrator/engine.go:158-180 | the primary if registered, else the first registered fallback, none exactly when none is registered |
| Paystack.RoundTripIff | internal/connector/paystack/connector.go:387-399 | an amount survives the round trip exactly when the currency has no hundredths or its hundredfold fits an int64 |
| Paystack.SentAs | internal/connector/paystack/connector.go:378-392 | KES, UGX, TZS and RWF travel as they are, every other currency in hundredths |
| Paystack.BackAndForth | internal/connector/paystack/connector.go:387-399 | the other way only the remainder below one unit is lost |
| Paystack.AdmittedSurvives | internal/connector/paystack/connector.go:387-399 | every amount the risk check admits survives |
| Paystack.GetStatus | internal/connector/paystack/connector.go:140-155 | the status the reconciliation lemmas speak of: success exactly on a true flag with status success, the amount converted back |
| Reconciliation.ReconcilePSP | internal/reconciliation/runner.go:58-123 | the three counters count the rows by verdict; errors are exactly the rows the provider was asked about and failed to answer |
| Reconciliation.VerdictMeans | internal/reconciliation/runner.go:63-115 | which rows are passed over, errors, unmatched and matched, on the fields of row and answer |
| Reconciliation.CountersPartition | internal/reconciliation/runner.go:61-122 | matched plus unmatched plus errors equals the provider's rows |
| Reconciliation.CleanIff | internal/reconciliation/runner.go:77-115 | nothing is counted unmatched or errored exactly when the provider confirms every row: outcome and amount |
| Reconciliation.EchoVerdict | internal/reconciliation/runner.go:95-113 | a Paystack row whose own amount comes back from the verify call is flagged exactly on a status mismatch or an int64 overflow of its hundredfold |
| Reconciliation.AdmittedEcho | internal/reconciliation/runner.go:92-115 | for an amount the risk check admitted only the status mismatch remains |
| DeepMerge.Merging | internal/api/portal.go:1737-1747 | the in-place merge of separate trees equals the functional right-biased merge; the source keeps its contents; the result is made of objects of both trees and has absorbed the source |
| DeepMerge.MergingAgain | internal/api/portal.go:1737-1747 | in place, a source merged in already, a shared map or the map itself changes no object |
| DeepMerge.MergingTwice | internal/api/portal.go:1737-1747 | in place, two calls with the same source object leave what one call leaves |
| DeepMerge.MergeTwice | internal/api/portal.go:1737-1747 | the functional merge of the same source twice is merging it once |
| DeepMerge.MergeSelf | internal/api/portal.go:1737-1747 | the functional merge of a tree into itself changes nothing |
| DeepMerge.MergePaths | internal/api/portal.go:1737-1747 | leaves of the source win, and paths it does not touch keep what they had |
| DeepMerge.MergeKeys | internal/api/portal.go:1738-1745 | the keys are the union, level by level, and where one side is no map the source wins |

## Left out

- HTTP handlers, portal, sessions, one-time passwords, exports, notifications and merchant webhook delivery: no part in the money path.
- Portal-created payouts (`internal/api/portal.go:864-874`): pending rows without a posting; the statements about payouts are about settlement's.
- Provider network calls, tokens, JSON and signatures: a provider is an oracle that answers anything; a request that is never answered is a stopped thread.
- NATS, Redis and Postgres internals: what remains is at-least-once unordered delivery, a cache that may lose or never get entries, tables with the unique index and the positive-amount check, and statements that may fail.
- The consumer loop and its acknowledgements: in the switch any event may be delivered at any time and any number of times, which covers redelivery and duplicates that pass the dedup row.
- Refund and expiry transitions: the table has them but nothing drives them; refunds are modelled as a ledger operation only.
- Balances per currency: the balance query sums over currencies and so does the model; the Postgres sum is unbounded and its scan into an int64 does not overflow here.
- Wall clock: a parameter that does not run backwards where an object keeps times; one routing call happens at one instant.
- Random identifiers: row indices; a generated idempotency key is an arbitrary string, which may even collide.
- Attempt columns for payloads and transaction identifiers: their statements are issued and may fail, the columns are not kept.
- Isolation: SwitchSafety and SwitchMirror assume it for webhooks; SwitchRaces shows that the code does not provide it.
- Orchestrator.Engine: creation is one method in the source; here lookup, admission, insert and collection are methods of their own that it calls in order. The delayed query in `Switch` reads the attempt and calls the provider in one step, as attempts never change the columns it reads.
- Risk and routing inside the switch: there the environment admits any amount within the cap and chooses the provider; the exact conditions are those of `Orchestrator.Engine.Admit`. SwitchBooks.CreationAlone therefore starts at the insert.
- Settlement.Runner.Settle: the merchant list is a parameter; listing merchants may fail only before anything happens.
- Accounts.FormatAccount: shorter inputs than the template's placeholder would make the reservation panic; they are excluded, and no caller can produce them.
- DeepMerge.Merging: source and destination trees share no map object at the start, as two decoded documents never do; DeepMerge.MergingAgain is the call on a source merged in before or on the map itself; other sharing is not modelled. Nor is a missing destination map, on which the source would panic. Values that are not maps are texts.
- Orchestrator.IdempotencyStore: an entry vanishes at its expiry; losing it earlier is modelled in `Switch`.
- Telemetry, logging, deployment and the phone, money and signing helper packages.
