# Verification of the wallet ledger, payments and webhooks

Dafny models of the repository's transactional core and proofs of what it promises:

- **The ledger and the business records on it.** `Posting`, `Ledger`, `Plans`, `Business`, `Operations`
  and the `*Steps` modules state what every service transaction (transfer, reversal, payment intent,
  settlement, opening and closing a wallet) decides and writes, as functions on the tables, and prove that each
  keeps the ledger invariant and everything the commit-time triggers check. `History` ties balances to
  business history. `Runs` and `Safety` lift this to whole runs.
- **What callers get.** `Verdicts`, `TransferVerdicts`, `ReversalVerdicts` and `PaymentVerdicts` say what every call
  answers and leaves behind in terms of its input and the tables: what moves where, and for each condition that fails the
  one reason that is answered, stored or not. `Eligibility` says exactly which requests succeed.
- **Concurrency.** `Locks`, `Frames`, `Snapshots`, `Decisions` and `Interleavings` model transactions as
  begin, lock, validate-on-snapshot and commit steps with first-updater-wins, closing a wallet at READ COMMITTED,
  and prove that the committed tables of any interleaving are a run of atomic steps; `Alone` that a call without
  competitors is one such interleaving. `Outcomes` draws the consequences for stale readers, `Deadlock` proves the
  lock order free of wait cycles, and `CallbackOrder` that the order of callbacks does not matter.
- **The services as they run.** `Database`, `LedgerService`, `TransferService`, `ReversalService`,
  `PaymentService`, `WalletService` and `LedgerMigration` are classes and methods that change the tables statement by
  statement, with the loops of the source, proved against the functions above; their whole calls promise the
  verdicts. `Races` is what happens to a call that loses a race: the tables it sees are those of a run.
- **The ledger migration.** `Migration` proves that it establishes the invariant runs start from.
- **Webhooks.** `Deliveries` (transactions), `DeliverySafety` (invariant), `DeliveryRuns` (fencing, bounds,
  termination), `DeliveryVerdicts` (what a claim, a start and the status of a response do to a delivery) and
  `DeliveryService` (the service as it runs).
- **Outbox and checkout.** `Outbox` and `OutboxWorker` (publishers without leases), `Publication` (the outbox rows of
  the ledger's transactions), `Checkout` (at most one provider call per payment).

`Sums`, `Domain`, `Amounts` and `Store` hold map sums, identifiers, amount texts and the tables as one value.

`dafny verify dfyconfig.toml` checks everything.

## Assumptions

- Random UUIDs are unused when drawn; SHA-256 and MD5 of different texts differ, so a digest is the text hashed.
- The clock does not go back.
- A serializable transaction reads the snapshot it began with, and a row changed since then cannot be locked or
  written by it; a duplicate of a unique key waits for and then fails on the first insertion. Nothing more of
  PostgreSQL's serializable isolation is used.
- A commit applies all rows of a transaction or none.
- A queue may run a job any number of times; a transport or provider may answer anything.
- Statements of one webhook transaction run as one step.

Where the documentation and the code differ, the model follows the code. README.md:117 credits the lock on the
original transfer row with keeping competing reversals from compensating a transfer twice. The code holds that lock,
but no reversal writes that row and the snapshot is older than the lock, so a waiting reversal goes on and still sees the
transfer unreversed; the account rows both must write and the unique index on the reversed transfer stop it
(`Outcomes.SecondReversalsStopAtTheAccounts`).

## Model

| member | source | states |
|---|---|---|
| Posting.Normalize | src/ledger/ledger.invariants.ts:32-96 | the traversal with a set of seen ids and a running total accepts exactly the requests that obey all rules, and otherwise reports the first broken one |
| Posting.NormalizedExactlyWhenAcceptable | src/ledger/ledger.invariants.ts:35-88 | a request is refused exactly when it breaks a rule, always with status 400; an accepted one keeps postings and currency, and its texts without the blanks around them |
| Domain.TrimTakesBlanks | src/ledger/ledger.invariants.ts:35-43 | trimming cuts blanks off both ends and nothing else; a text becomes empty exactly when it is blank |
| Ledger.DistinctRows | src/ledger/ledger.invariants.ts:73-77 | distinct account texts make one row per account lossless: the rows sum to the postings' total |
| Ledger.AcceptedPost | src/ledger/ledger.service.ts:68-143 | an accepted posting names existing accounts of one currency, moves a non-zero supported amount on each, sums to zero, finds every wallet active and uses a fresh reference |
| Verdicts.PostVerdict | src/ledger/ledger.service.ts:64-143 | a posting of any length is accepted if and only if it obeys the rules, every account it names can change by its part and its reference is unused; otherwise the rules come first, then an unknown account, then the first posting that fails, then the reference |
| Verdicts.PostingVerdict | src/ledger/ledger.service.ts:95-143 | which reason each failing check gives, in order: unknown account, other currency, inactive wallet, out of range, too little money; the checks for inconsistent rows never fail in sound books |
| Ledger.PostKeepsSound | src/ledger/ledger.service.ts:145-179 | any accepted posting keeps the whole ledger invariant: paired accounts, balances equal to posted sums, synchronised wallets, sealed balanced transactions, currencies summing to zero |
| LedgerService.LedgerService.PostWithinTransaction | src/ledger/ledger.service.ts:64-189 | the code path writes exactly the planned rows; on any error no row has changed, so every refusal precedes the first write |
| LedgerService.LedgerService.Validate | src/ledger/ledger.service.ts:92-143 | the validation loop builds the next-balance map, or stops at the first failing posting |
| LedgerService.LedgerService.WriteBalances | src/ledger/ledger.service.ts:163-173 | in whatever order accounts are updated, all end with their next balance, and the trigger, which fires only for a changed balance, has brought their wallets along |
| LedgerService.AllWritten | prisma/migrations/20260911143000_ledger_core/migration.sql:232-254 | account updates with the guarded synchronisation trigger amount to the planned account and wallet rows |
| Ledger.PostingRewritesEveryWallet | prisma/migrations/20260911143000_ledger_core/migration.sql:232-254 | because no posting is zero, the trigger's guard holds for every posted wallet: its row is written, by exactly its posting |
| Frames.PlannedWalletsAreRewritten | src/ledger/ledger.invariants.ts:65-67 | every wallet row a committing transfer, reversal or settlement takes, it takes by writing it with another balance |
| TransferSteps.TransferKeepsIntact | src/transfers/transfers.service.ts:187-256 | a transfer that passes its checks keeps every row's integrity and only adds to history |
| TransferSteps.TransferKeepsRows | prisma/migrations/20260911163000_transfers_idempotency_beneficiaries/migration.sql:141-230 | what the commit-time transfer check demands, the named beneficiary included, holds of the new transfer and of all old rows |
| ReversalSteps.ReversalKeepsIntact | src/reversals/reversals.service.ts:143-211 | a reversal that passes its checks keeps every row's integrity and only adds to history |
| ReversalSteps.ReversalKeepsRows | prisma/migrations/20260911224500_reversals_audit/migration.sql:201-299 | what the commit-time reversal and audit checks demand holds of the new reversal and of all old rows |
| PaymentSteps.SettleKeepsIntact | src/payments/payments.service.ts:246-329 | whatever a verified callback commits keeps every row's integrity and only adds to history |
| PaymentSteps.SettlementKeepsRows | prisma/migrations/20260914190000_provider_payments/migration.sql:144-192 | what the commit-time payment and event checks demand holds after a first settlement |
| PaymentSteps.IntentKeepsIntact | src/payments/payments.service.ts:54-76 | a new intent moves no money and keeps one intent per user and key |
| WalletSteps.OpenKeepsIntact | src/wallets/wallets.service.ts:10-37 | a new wallet and its zero account keep the invariant |
| WalletSteps.CloseKeepsIntact | src/wallets/wallets.service.ts:63-121 | closing commits only for an empty (or already closed) wallet and keeps the invariant |
| Runs.StepKeepsGood | prisma/migrations/20260911151500_ledger_write_context/migration.sql:2-60 | every committed step keeps the invariant and neither rewrites nor loses recorded history |
| Safety.AuditReportsNoFailures | scripts/audit-ledger.mjs:7-25 | in every state of every run all five audit checks find nothing; only clearing accounts go below zero, balances fit 64 bits and each currency sums to zero |
| Safety.OpeningsNeverChange | prisma/migrations/20260911143000_ledger_core/migration.sql:86-126 | what an account was opened with is the same in every state of a run |
| Safety.BalancesEqualHistory | src/transfers/transfers.service.ts:187-201 | in every state each wallet holds what it was opened with at the start of the run plus successful payments plus unreversed incoming minus outgoing transfers; each clearing account what it was opened with minus successful payments |
| Migration.BalancesSinceMigration | prisma/migrations/20260911143000_ledger_core/migration.sql:87-137 | since the migration each wallet holds its pre-ledger balance (0 for later wallets) plus payments plus transfers, and each clearing account minus the pre-ledger total of its currency and minus its successful payments |
| Safety.ClosedWalletsAreFinal | src/wallets/wallets.service.ts:101-118 | a closed wallet stays closed and empty and nothing is posted to it again |
| Safety.TransfersReplayForever | src/transfers/transfers.service.ts:395-430 | once a key has a record, every later call is answered from it and writes nothing: same request, same answer; other request, conflict |
| Safety.ReversalsReplayForever | src/reversals/reversals.service.ts:312-347 | the same for reversals |
| Safety.DigestsIdentifyRequests | src/transfers/transfers.service.ts:353-393 | two accepted requests have equal digests exactly when they name the same wallets and the same number, however it is written |
| Safety.IntentDigestsIdentify | src/payments/payments.service.ts:42-51 | two accepted intents have equal digests exactly when wallet and number are the same |
| Safety.IntentsReplayForever | src/payments/payments.service.ts:55-58 | once a key has made an intent, every later call under it gets that payment or a conflict |
| Safety.CompensationsBelongToReversals | prisma/migrations/20260911224500_reversals_audit/migration.sql:201-299 | every transaction with a reversal reference belongs to a recorded reversal and cancels its transfer |
| Safety.BeneficiariesOfTransfersStand | prisma/migrations/20260911163000_transfers_idempotency_beneficiaries/migration.sql:178-190 | a transfer that names a beneficiary names, for good, one of its sender's that points at its destination |
| Safety.EventsReportWhatHappened | src/transfers/transfers.service.ts:235-247 | the outbox holds one event for every transfer, reversal and settled payment, and no other |
| Publication.TransfersAreAnnounced | src/async/async-worker.service.ts:97-149 | the event of a committed transfer keeps its one row: published with its job queued, or claimable within five minutes, and at most one notification tells of it |
| Safety.OneResourcePerKey | prisma/migrations/20260911224500_reversals_audit/migration.sql:92-177 | every transfer and reversal exists under exactly one user, scope and key, its owner's |
| Safety.ReversalsCompensate | prisma/migrations/20260911224500_reversals_audit/migration.sql:180-299 | a reversed transfer and its reversal never change and their postings cancel on every account |
| Safety.NoSecondReversal | src/reversals/reversals.service.ts:124-141 | after a reversal, a request under any new key is refused and moves nothing |
| Safety.SettledExactlyOnce | prisma/migrations/20260914190000_provider_payments/migration.sql:103-142 | a settled payment never changes, was credited by exactly one transaction if it succeeded and none otherwise, and all its evidence agrees with it |
| Outcomes.TransferEndsOneOfThreeWays | src/transfers/transfers.service.ts:94-278 | a fresh attempt commits the complete intact bundle, or only a stored client error, or nothing; of a normalised request it commits always, and the stored reason names the condition that fails |
| Outcomes.ReversalEndsOneOfTwoWays | src/reversals/reversals.service.ts:92-233 | a fresh attempt commits the complete intact bundle, or only the stored reason of the condition that fails; it never rolls back |
| TransferVerdicts.RequestVerdict | src/transfers/transfers.service.ts:353-379 | refused before any transaction: both or neither destination, a text that is no number, a number out of range; anything else is processed with the wallets and the number the caller named |
| TransferVerdicts.TransferVerdict | src/transfers/transfers.service.ts:94-278 | a fresh attempt always commits: the transfer as asked, its amount gone from the source and arrived at the destination and no other wallet touched, or the refusal of whichever condition fails, stored with its reason and nothing else written: not the owner, inactive, unknown, same wallet, other currency, too little money, no room |
| TransferVerdicts.OneVerdict | src/transfers/transfers.service.ts:95-201 | no two of these conditions hold at once and none where the transfer can be made, so the answer is unique |
| ReversalVerdicts.ReversalVerdict | src/reversals/reversals.service.ts:92-233 | a fresh attempt always commits: the money back from destination to source, or the stored refusal: not the sender, already reversed, a wallet inactive, no room, too little money |
| ReversalVerdicts.OneReversalVerdict | src/reversals/reversals.service.ts:102-159 | these conditions exclude each other and the reversal |
| PaymentVerdicts.SettlementVerdict | src/payments/payments.service.ts:246-329 | what a verified callback answers: the first success credits the wallet from the clearing account, the first failure moves nothing, repeated evidence adds its event at most, and a refusal changes nothing and has the reason that holds: unknown payment, mismatch, event reused, conflicting outcome, inactive wallet, out of range |
| PaymentVerdicts.OneSettlementVerdict | src/payments/payments.service.ts:249-303 | these reasons exclude each other and every acceptance |
| PaymentVerdicts.IntentVerdict | src/payments/payments.service.ts:42-76 | an intent is new, pending and as asked; or the one its key made for the same request; or refused, changing nothing, for the reason that holds: amount, key reused, not the owner, inactive wallet, not for Paystack |
| Eligibility.TransferSucceedsExactlyWhen | src/transfers/transfers.service.ts:95-201 | a transfer succeeds if and only if the sender owns the source, the named destination is another wallet, both are active and of one currency, the source holds the amount and the destination has room |
| Eligibility.ReversalSucceedsExactlyWhen | src/reversals/reversals.service.ts:102-159 | a reversal succeeds if and only if the sender asks, it is the first, both wallets are active, and the money can still move back |
| Eligibility.FundingSucceedsExactlyWhen | src/payments/payments.service.ts:249-303 | successful evidence credits a pending payment if and only if it matches, is new, and wallet and clearing account can take the amount |
| Eligibility.IntentSucceedsExactlyWhen | src/payments/payments.service.ts:42-74 | a first call makes an intent if and only if the text prints a positive 64-bit number and the user's wallet is active, through Paystack only for safe naira amounts; the intent has that amount |
| Eligibility.AtomicExactlyWhenBeneficiaryStands | src/transfers/transfers.service.ts:124-148 | a transfer committed on a snapshot equals the one the committed tables would make if and only if its destination still resolves the same way: the beneficiary is the one thing read without a lock |
| Eligibility.DeletedInBetween | src/beneficiaries/beneficiaries.service.ts:114-132 | with the beneficiary deleted softly in between, the locked rows agree and the transfer commits where an atomic one would be refused |
| Locks.PostingReadsWhatItWrites | src/ledger/ledger.service.ts:71-179 | a posting accepted on a snapshot is accepted, with the same rows, on any tables that agree with the snapshot on the accounts and wallets it writes |
| Frames.SendFrame | src/transfers/transfers.service.ts:94-256 | a transfer decides the same on any tables agreeing on the rows it locks |
| Frames.UndoFrame | src/reversals/reversals.service.ts:93-211 | a reversal decides the same on any tables agreeing on the rows it locks |
| Frames.SuccessFrame | src/payments/payments.service.ts:249-320 | a crediting settlement decides the same on any tables agreeing on the rows it locks |
| Decisions.LockedDecisionsAreCurrent | src/ledger/ledger.service.ts:71-86 | with all locks held, a decision taken on an arbitrarily old snapshot is a replay, a stored refusal, or the decision the committed tables give |
| Interleavings.DecisionCovered | src/ledger/ledger.service.ts:145-179 | a transaction writes only rows it holds and rows nobody has seen |
| Interleavings.CommitIsAStep | src/transfers/transfers.service.ts:66-284 | a commit has the effect of one atomic step on the committed tables, which recalls at most the snapshot the transaction began with |
| Interleavings.EventsKeepConsistent | src/wallets/wallets.service.ts:63-121 | begins, locks, commits, aborts and edits all keep snapshots true, held rows current and locks exclusive |
| Interleavings.InterleavingsAreRuns | src/ledger/ledger.service.ts:64-189 | the committed tables of any interleaving form a run, so every theorem about runs holds of it |
| Alone.AloneIsAtomic | src/transfers/transfers.service.ts:66-284 | conversely, an operation that begins, takes its rows one by one and commits with nobody else about has exactly the effect of its service call |
| Outcomes.StaleReadersCannotCommit | src/ledger/ledger.service.ts:105-126 | a transaction that validated against a row written since, such as a stale ACTIVE wallet, can neither lock that row nor commit |
| Outcomes.StaleReadersStayStale | src/wallets/wallets.service.ts:81-118 | no later event helps it: it can only abort |
| Outcomes.StaleActiveCannotCommit | src/wallets/wallets.service.ts:81-118 | a transaction that read a wallet as ACTIVE which is closed by now cannot commit |
| Outcomes.ClosedWalletsStayClosed | src/wallets/wallets.service.ts:63-121 | across any interleaving a closed wallet stays closed and empty and no posting to it commits |
| Outcomes.SecondReversalsStopAtTheAccounts | src/reversals/reversals.service.ts:93-175 | a reversal writes both accounts and the unique key of the reversal but not the transfer row it locks, so competing reversals meet at the former |
| Deadlock.PlansAreOrderly | src/ledger/ledger.service.ts:69-81 | every transaction takes records, then transfer or payment, then evidence, then accounts by id, and wallets and reversals only under rows it holds |
| Deadlock.GuardedRowsAreFree | src/wallets/wallets.service.ts:81-97 | nobody ever waits for a wallet row or a reversal key |
| Deadlock.NoWaitCycle | src/reversals/reversals.service.ts:93-100 | no chain of waiting transactions closes into a cycle |
| Deadlock.SomeoneCanStep | src/payments/payments.service.ts:249-252 | while transactions are active, one holds all its rows or its next row is free |
| CallbackOrder.OrderAndRepetitionDoNotMatter | src/payments/payments.service.ts:255-321 | same-outcome callbacks of a payment, in any order and with any repetition, are accepted or refused alike and leave the same tables |
| CallbackOrder.SettledFold | src/payments/payments.service.ts:261-282 | on a settled payment a set of callbacks is accepted exactly when its evidence matches and does not contradict itself, and then all of it is stored |
| Amounts.AcceptedAmountsAreABijection | src/payments/payments.service.ts:42-47 | accepted amount texts and positive 64-bit amounts correspond one to one by printing |
| Amounts.AcceptedPaystackAmountsAreABijection | src/payments/providers/paystack-provider.ts:37-46 | the same for Paystack texts and safe integers |
| Amounts.MockEvidenceComparesNumerically | src/payments/payments.service.ts:255-260 | comparing printed amounts with accepted evidence texts is numeric equality |
| Amounts.PaystackEvidenceComparesNumerically | src/payments/providers/paystack-provider.ts:121-127 | distinct verified amounts never print alike |
| TransferService.TransfersService.Send | src/transfers/transfers.service.ts:94-247 | the body either writes the planned rows or fails with nothing written |
| TransferService.TransfersService.Attempt | src/transfers/transfers.service.ts:67-284 | claim, body, completion and in-transaction failure capture amount to the planned commit or rollback |
| TransferService.TransfersService.Create | src/transfers/transfers.service.ts:55-311 | the whole call on its input: a request refused outright writes nothing; an aborted one writes nothing and answers what the run has recorded under its key, or to retry; a known key gets its stored answer; a new one moves the amount from the named source to the named destination, or stores and throws the refusal that holds |
| Races.ReplayAfterRace | src/transfers/transfers.service.ts:432-456 | five looks at a running system: the answer is that of the last state seen, whichever look finds the record, and never "still processing" |
| Races.LosersGetTheWinnersReply | src/transfers/transfers.service.ts:286-308 | once an attempt has committed, losers of its key get the very reply of that attempt for the same request and a conflict for another |
| Runs.RefusalRows | src/transfers/transfers.service.ts:259-278 | a stored refusal is the client error the attempt met in the tables it read, under its key and digest |
| ReversalService.ReversalsService.Attempt | src/reversals/reversals.service.ts:65-240 | the reversal transaction amounts to the planned commit or rollback |
| ReversalService.ReversalsService.Create | src/reversals/reversals.service.ts:52-258 | the whole call on its input, as for transfers; the reason is trimmed, and none if blank |
| PaymentService.PaymentsService.Settle | src/payments/payments.service.ts:246-329 | the settlement transaction amounts to the planned commit or a full rollback |
| PaymentService.PaymentsService.SettleVerified | src/payments/payments.service.ts:228-244 | three attempts on tables others keep changing: the first that the database does not end decides, with the answer its tables give; the caller is told to retry if and only if all three were ended, with nothing written; the tables stay intact and never is a payment credited twice |
| PaymentService.PaymentsService.CreateIntent | src/payments/payments.service.ts:42-86 | an intent is created, replayed for the same request, or refused for the reason that holds; losing the key to another call, it answers that call's payment, a conflict, or to retry |
| WalletService.WalletsService.Create | src/wallets/wallets.service.ts:10-37 | succeeds if and only if the user has no wallet in the currency, and answers the new one: then the only one, active, empty, with an account of its own; no existing row changes |
| WalletService.WalletsService.Close | src/wallets/wallets.service.ts:63-121 | decides on the second read, under the locks and after whatever others committed: closes if and only if the wallet is then active and empty, or closed already, changing only its status |
| Migration.MigrationEstablishesTheInvariant | prisma/migrations/20260911143000_ledger_core/migration.sql:24-137 | the migration establishes the invariant of all later states if and only if no closed wallet held money; accounts equal their postings and each clearing account is minus its currency's total |
| Migration.MigrationRunsWhenTotalsFit | prisma/migrations/20260911143000_ledger_core/migration.sql:33-38 | it runs if and only if no wallet has a clearing account's id and both totals fit their column |
| Migration.RunsStartFromTheMigration | prisma/migrations/20260911143000_ledger_core/migration.sql:24-137 | what the migration leaves is a start of runs and interleavings |
| LedgerMigration.MigrateWallets | prisma/migrations/20260911143000_ledger_core/migration.sql:24-137 | the statements, one after the other, amount to the migrated tables or leave none |
| DeliverySafety.StepKeepsIntact | src/webhooks/webhook-delivery.service.ts:28-212 | attempts are numbered 1 to the count (at most 5), only the last can be open, exactly while leased, and only the last can have succeeded, exactly when delivered; tokens and attempts correspond one to one; no attempt is sent twice |
| DeliveryRuns.OnlyTheLeaseHolderActs | src/webhooks/webhook-delivery.service.ts:71-116 | starting or finishing changes something if and only if the job holds an unexpired lease and the attempt is in the expected state |
| DeliveryRuns.LeaseNamesTheAttempt | src/webhooks/webhook-delivery.service.ts:56-65 | a live token names the current attempt, and at most one job of a delivery is live |
| DeliveryRuns.FencedForever | src/webhooks/webhook-delivery.service.ts:71-88 | a job whose lease expired, was released or superseded is dead in every later state |
| DeliveryRuns.AtMostFiveSends | src/webhooks/webhook-delivery.service.ts:90-169 | however often jobs run, each attempt is sent at most once and a delivery at most five times |
| DeliveryRuns.StepComesCloser | src/webhooks/webhook-delivery.service.ts:28-212 | every step leaves a delivery untouched or strictly reduces the work left on it |
| DeliveryRuns.BoundedWork | src/webhooks/webhook-delivery.service.ts:18-212 | a delivery changes at most fifteen times |
| DeliveryRuns.EndsAreFinal | src/webhooks/webhook-delivery.service.ts:194-210 | delivered, failed and cancelled deliveries and their attempts never change |
| DeliveryRuns.RetryPauses | src/webhooks/webhook-delivery.service.ts:182-208 | a retryable failure of attempt 1 to 4 pauses for 1, 2, 4 or 8 seconds; any other failure is final |
| DeliveryRuns.PausesAreKept | src/webhooks/webhook-delivery.service.ts:30-35 | before its pause is over a waiting delivery is untouched or cancelled |
| DeliverySafety.DisableKeepsIntact | src/webhooks/webhooks.service.ts:49-65 | disabling cancels subscription, deliveries and attempts together without leaving one open |
| DeliveryVerdicts.ClaimableWhen | src/webhooks/webhook-delivery.service.ts:30-35 | a waiting delivery is claimable from its time on, a leased one if and only if no job holds its lease any more, an ended one never |
| DeliveryVerdicts.ClaimVerdict | src/webhooks/webhook-delivery.service.ts:37-66 | a claim abandons the attempt of the expired lease and queues the next one under a new lease of 30 seconds; after the fifth attempt the delivery has failed, and of a disabled subscription it is cancelled |
| DeliveryVerdicts.FinishVerdict | src/webhooks/webhook-delivery.service.ts:171-212 | under a live lease a success ends delivery and attempt as delivered and succeeded, a retryable failure waits 1, 2, 4 or 8 seconds, any other or the fifth is final; without one nothing changes |
| DeliveryVerdicts.ExecutionVerdict | src/webhooks/webhook-delivery.service.ts:118-169 | a live job whose response is 2xx ends delivered; 408, 429, 5xx and an unreachable endpoint wait for another attempt or have failed after the fifth; any other response, an unsafe endpoint and an undecryptable secret have failed; an expired lease records nothing more |
| DeliveryService.BatchClaims | src/webhooks/webhook-delivery.service.ts:28-69 | every delivery of a batch is claimed as if it were the only one, and the tables stay intact |
| DeliveryVerdicts.SendsAreCounted | src/webhooks/webhook-delivery.service.ts:90-139 | in runs a send is counted for exactly the live jobs, as that of their current attempt, and for nothing else |
| DeliveryVerdicts.FannedOutIsDue | prisma/migrations/20260914160000_webhooks/migration.sql:84-97 | a delivery fanned out is claimable at once, without attempts, and disturbs no other |
| DeliveryService.WebhookDeliveryService.ClaimBatch | src/webhooks/webhook-delivery.service.ts:28-69 | the claim loop claims every selected row, each as if it were the only one, and returns one job per lease |
| DeliveryService.BatchJobsAreLive | src/webhooks/webhook-delivery.service.ts:56-67 | every job of a batch holds the lease of its delivery, with a queued attempt |
| DeliveryService.WebhookDeliveryService.Start | src/webhooks/webhook-delivery.service.ts:90-116 | of a live job exactly the current attempt becomes sending; any other job changes nothing |
| DeliveryService.WebhookDeliveryService.Finish | src/webhooks/webhook-delivery.service.ts:171-212 | the finish transaction, statement by statement: delivered and succeeded after a success, waiting for its pause or failed after a failure, and nothing without a live lease |
| DeliveryService.WebhookDeliveryService.Execute | src/webhooks/webhook-delivery.service.ts:118-160 | start, sign, send and finish; something is sent exactly by a live job whose secret opens, and the delivery ends as the status of the response says |
| DeliveryService.WebhookDeliveryService.PublicationFailed | src/webhooks/webhook-delivery.service.ts:162-169 | a job the queue refused changes its delivery if and only if its lease is live and its attempt queued; the delivery then waits 1, 2, 4 or 8 seconds for the next attempt or, after the fifth, has failed |
| DeliveryService.WebhookDeliveryService.Disable | src/webhooks/webhooks.service.ts:49-65 | afterwards no delivery of the subscription is unfinished and none of their attempts open; ended deliveries and other subscriptions' deliveries are untouched |
| Deliveries.OutcomeOf | src/webhooks/webhook-delivery.service.ts:141-156 | no answer of the transport is both a success and a reason to retry |
| Outbox.ReleaseIsRejectedExactlyWhenPublished | prisma/migrations/20260912143000_async_outbox_notifications/migration.sql:21-25 | the CHECK rejects a publisher's release if and only if the event is published already |
| Outbox.UnpublishedBecomesDue | src/async/async-worker.service.ts:97-115 | unpublished rows, and no others, become claimable and stay so |
| Outbox.Backoffs | src/async/async-worker.service.ts:134-146 | the pause is min(60 s, 1 s times 2 to the attempts), although the exponent stops at 6, and never gets shorter |
| Outbox.WhenRowsAreDue | src/async/async-worker.service.ts:97-146 | after a release one attempt more is counted and the row is due exactly from the end of its pause on; after a claim, once five minutes have passed; once published, never |
| Outbox.PausesAreKeptExactlyWhen | src/async/async-worker.service.ts:97-149 | in no run is a waiting event claimed before its time if and only if no publisher still at work on it would, failing now, make it due earlier |
| Outbox.ReleasesPauseExactlyWhen | src/async/async-worker.service.ts:134-146 | after a release that committed, the event is claimed by nobody before min(60 s, 1 s times 2 to the attempts) in any run, if and only if no other publisher at work on it has a shorter pause |
| Outbox.PublishedForGood | src/async/async-worker.service.ts:117-149 | with any number of stale publishers PUBLISHED is never left, and a published event's job reached the queue |
| Outbox.ClaimableWithinFiveMinutes | src/async/async-worker.service.ts:97-115 | five minutes after any state, every event unpublished in it is claimable |
| Outbox.OneNotificationPerEvent | src/async/notification.service.ts:9-24 | however often its job runs, an event has at most one notification, which stays |
| Outbox.NotifiedOnce | src/async/notification.service.ts:9-24 | whenever its job has run, an event has exactly one notification |
| OutboxWorker.AsyncWorkerService.Publish | src/async/async-worker.service.ts:117-149 | one publication: published if queue and update went through; else an unpublished row is released, with one attempt more, due again exactly from the end of its pause on; it raises exactly when the release fails or the CHECK rejects it |
| OutboxWorker.AsyncWorkerService.DispatchOnce | src/async/async-worker.service.ts:73-95 | one poll: every claimed event is published or released, in order, up to the first whose release fails; that one and the rest stay claimed; PUBLISHED is never left |
| OutboxWorker.PublicationIsARun | src/async/async-worker.service.ts:117-149 | one publication by the worker is a run of the concurrent publishers in which only it acts, so what holds of runs holds of it |
| Checkout.InitializedAtMostOnce | src/payments/payments.service.ts:106-138 | across concurrent, repeated, failing and crashing calls the provider is asked at most once per payment |
| Checkout.OneCheckoutUrl | prisma/migrations/20260916010000_paystack_checkout/migration.sql:9-29 | all calls that ever return a checkout URL for a payment return the same valid one |
| Checkout.StoredUrlIsAnswered | src/payments/payments.service.ts:115-124 | once a URL is stored, every repeated call that reads the claim is answered with it |
| Checkout.CallIsARun | src/payments/payments.service.ts:106-138 | a call of the service, dying where it may, is a run of the concurrent calls in which only it acts |
| Checkout.CheckoutService.InitializePaystack | src/payments/payments.service.ts:106-138 | a claim precedes the provider call, whether the call survives or dies after any commit; a call that lost the claim asks nobody and returns the stored URL if there is one; the winner returns exactly a valid URL it has stored |

## Left out

- Interleavings.CommitIsAStep: the atomic step reads a beneficiary as it stood when the transaction began, because the code neither locks nor writes it; Eligibility.AtomicExactlyWhenBeneficiaryStands gives the exact condition for more.
- Outbox.ClaimableWithinFiveMinutes: says that an event can be claimed, not that a worker polls.
- Outbox.ReleasesPauseExactlyWhen: publishers hold no lease, so one that claimed the event five minutes earlier may still release it, and shorten the pause if it read fewer attempts; the lemma says exactly when.
- OutboxWorker.AsyncWorkerService.DispatchOnce: what other publishers do to the batch meanwhile is part of the runs of Outbox, not of the method.
- DeliveryService.WebhookDeliveryService.Execute: what happens between start and finish is part of the runs of DeliveryRuns, except that the lease may expire.
- HTTP controllers, authentication, rate limiting, encryption, signatures, URL and address filtering, health, metrics: no property of the tables depends on them; callbacks count as verified.
- Beneficiary management, registration, listings and cursors, notification texts, outbox payloads: easy members; beneficiaries occur only as what a transfer resolves.
- `LedgerService.post` as an operation of runs and interleavings: nothing in the services calls it; postings with up to 50 rows are covered by Ledger.PostKeepsSound and Locks.PostingReadsWhatItWrites.
- Freezing a wallet: no service sets FROZEN, so runs never do; the checks that read it are modelled.
- The full conflict detection of serializable isolation and foreign-key share locks: the proofs use less than PostgreSQL gives.
- Waits on the unique keys (user, currency) of wallets and (user, key) of payments, and on the references of ledger transactions: inserting them is checked at commit and is not part of the lock order.
- The idempotency header's pattern and trimming, lower-casing of ids, and integer texts BigInt accepts besides decimal digits (signs, blanks, hexadecimal): the model takes normalised keys and ids and digit texts.
- String lengths count characters of the model, not UTF-16 code units.
- Columns no decision reads: descriptions, timestamps of the ledger, labels, HTTP status and error code of attempts.
- The session flags `app.*_write`: only the modelled transactions write these tables.
- Interleaving of single statements inside the webhook transactions, owners of subscriptions, which event a delivery carries, and signing itself.
- The mock provider's initialize call and the branch that refuses to initialise a mock intent through Paystack: they change no row.
- Redis and BullMQ: replaced by a queue that may run any job any number of times, and by calls that may fail after they landed.
