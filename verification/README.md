# Verification of the Aureva Rewards backend protocols

This project models, in Dafny 4.11, the parts of the backend whose correctness is a
matter of whole runs rather than of one function body, and proves what they promise.
`dafny verify dfyconfig.toml` checks everything.

| area | files | main results |
|---|---|---|
| points ledger and redemption | PointsDatabase, PointsMachine, PointsRuns, PointsRequests, PointsRaces, PointsStore | every interleaving of recordPointTransaction and redeemReward is serializable, keeps the ledger sound, redeems a key once, and never deadlocks; every row is what some request asked for and every balance what was earned less what was spent; exactly why a request is refused; what a redemption that loses a race is told |
| distribution jobs | DistributionJobs, JobRuns, JobService | recipients are partitioned and never called after success, however calls overlap and die; exactly when a job is lost; the queue drains; what 'completed' and 'failed' mean, from the request's names to the calls |
| contract event ingest | EventIngest, EventDispatches, EventOverlap, EventStore | exactly-once rows and a forward cursor across crashes and replays; exactly when events are lost, handlers overlapping or not; how often a row can fail or be dispatched, and exactly when a success is the end of it |
| rate limiting, login throttle | SlidingWindow, RateLimiter, LoginThrottle | the pruned and expiring set decides as the full history does; Retry-After is tight; when the hard block is within reach, and when the counter never expires |
| field encryption, key rotation | FieldEncryption, BatchPass, BatchScript, KeyRotation | interrupted and repeated passes keep every row's meaning, end with the new key alone and leave nothing in plain text; exactly when a read falls back |
| transaction history | HistoryPages, CsvExport | exactly when following the cursor shows every row once; the CSV can be read back |
| refunds and reconciliation | Transactions, HistoryFilters, RefundRuns, RefundLog, RefundRaces, TransactionStore | refunds pair off one to one, belong to their original's owner and net to zero, each transaction is counted once, and the table is what was recorded but for them, over every interleaving |
| reward issuance | CanonicalJson, Issuance, IssuanceStore | the idempotency payload is injective; one row, one job, one `queued: true` per key |
| response times | Percentiles, MetricsCollector | buckets are the last 1000 samples; percentiles are nearest-rank |

## How it is built

A procedure that runs concurrently with others is a state machine over its statements: a
step is one statement, uncommitted writes stay in a workspace, `FOR UPDATE` and
conflicting unique inserts wait for the holder, and a transaction, process or worker may
be lost between any two steps. `Run` folds a list of actions, so a lemma about `Run` is a
statement about every interleaving. Each such machine is tied to a simple form of the same
operation run alone (`Execute`, `ProcessRefund`, `Enqueue`, ...).

Where the source updates state in place there is also a class whose methods are written
statement by statement and proved against that simple form; loops are loops. Pure code is
functions and lemmas.

Tables are sequences and maps, unique indexes are failing inserts, SQL text is not
modelled. Money is in integers (points, or ten-millionths for transactions). Oracles stand
for what is outside: whether a recipient's payment or an event's handler succeeds, random
IVs, clocks, which UPDATEs fail, what a statement's snapshot sees.

## Assumptions

- Points: `rewards`, `users` and the starting tables do not change except through the two
  procedures; ids come from the table's sequence. The trigger and the CHECKs are those of
  aurevaRewards/database/012_user_balance_and_trigger.sql and 011_point_transactions_secure_schema.sql.
  A reward's cost is above 0 (008_admin_email_and_rewards.sql:12), so the CHECK on
  points_spent adds nothing to the one on the ledger's amount; campaigns and referred users exist.
- Jobs: recipient ids of one job are distinct (`ConservesIffDistinct` shows what happens
  otherwise). Any number of calls run at once and each may die between any two of its
  statements; a Redis command happens or does not.
- Ingest: every record has a paging token; the unique index on (contract, transaction,
  ledger) that contractEventService.js:16-18 documents is there; no database error but a
  refused insert. In EventIngest handlers run one after another, as the service's
  exactly-once argument has them; in EventOverlap they overlap, as the stream's callbacks,
  which nobody awaits, can. Rounds of the retry loop overlap.
- Limiter: a caller's clock does not run backward between requests of one key, and Redis'
  clock gains at most 1000 ms on it. Redis is reachable.
- Encryption: AES-256-GCM is ideal for the keys at hand: a key opens what it sealed, and no
  blob passes the tag check of both keys. Where a reading is said to fail, a key also opens
  nothing that it did not seal (`Authentic`), and a ciphertext has at least a byte for every
  character (`Covers`). UTF-8 is folded into it.
- HMAC-SHA256 is collision-free on well-formed texts.
- Pagination: ids are unique and above 0; the cursor's timestamp is cut to milliseconds, as
  a JavaScript Date is.

## Where the code and what is said of it differ

The model follows the code.

- isEncrypted is documented as needing 29 bytes; 28 bytes, an encrypted empty string, also
  give 40 characters and pass.
- A plain-text secret of 64 hex digits, the form generateSecret gives, has a blob's shape:
  the initial encryption pass skips it, it never reads as itself again, and reading it fails
  unless the key sealed the very bytes it spells (`LegacyHexSecretIsLost`).
- Until a cursor is stored every reconnect starts at 'now', so events can be lost
  (`NothingLostIff`). aurevaRewards/database/008_create_contract_events.sql:7 accepts only
  'mint', 'claim', 'stake' and 'unstake'; a namespaced event's insert fails, and the next
  recorded event moves the cursor past it (`OwnRowIff`). Which types are accepted is a parameter.
- The service promises that no event is lost on a crash. Its stream callbacks are not
  awaited, so a later event's cursor can be stored while an earlier event is under way; a
  death then loses that event, and only then (`NothingLostIffNoLosingMove`).
- A row is said to be retried up to the maximum; since the retry timer does not wait for its
  last round, it can fail once more for every round open at once (`BoundIsReached`).
- A row marked processed can be failed again and retried: a round takes up a pending row while its own
  handler is still dispatching it (`HandlerRacesRound`), and two rounds can hold one row. A success is
  final exactly when nobody else has the row in hand (`ReturnIsFinalIff`).
- The soft lock is to last until the window decays. INCR and EXPIRE are two commands: a process that
  dies between them on the first failure leaves a counter that never expires, and at the soft
  threshold the address is shut out for good (`AbandonedIffFirstDied`, `ShutOutForGood`).
- No migration creates the unique index on contract events that the service relies on.
- A redeemReward overtaken by another with its key gets a unique violation, not a replay
  (`AnswerIsSerialIffNotOvertaken`, `KeyTakenIsReached`). A reward whose cost rounds to 0 is never redeemable.
  recordPointTransaction documents a positive amount and accepts negative ones.
- recordTransaction accepts refund rows and 'refunded' rows, which break the pairing
  (`RecordKeepsCleanIff`).
- processRefund puts FOR UPDATE on a query with a LEFT JOIN, which PostgreSQL refuses; the
  model has the row lock on the transaction that is meant.
- Timestamps are stored in microseconds, so the millisecond cursor can skip or repeat rows
  (`TraversalIsCompleteIff`).
- The CSV route reads createdAt, txHash and campaign.name, which the repository's rows do
  not have under these names; the model starts from a record that has them.
- A crash between createIssuance and the queue's add leaves a row that no one will ever
  process, and every later caller is told duplicate (`StrandedForGood`).
- A worker that dies between lPop and its save, or between saving a waiting job and its
  rPush, leaves the job queued or retrying in no queue, for good (`QueueMatchesIff`,
  `LostForGood`).

## Model

| member | source | states |
|---|---|---|
| `PointsDatabase.ExecuteKeepsSound` | aurevaRewards/backend/db/redemptionRepository.js:25-123 | every request run alone, served or refused, keeps unbroken non-negative chains from 0, balances equal to last balance_after and signed sum, stock >= 0, unique keys, each redemption paid by its own row |
| `PointsDatabase.ExecuteKeepsAccount` | aurevaRewards/backend/db/pointTransactionRepository.js:39-68 | one user's chain and balance row stay in agreement whatever request runs, the user's own or another's |
| `PointsDatabase.ExecuteKeepsStock` | aurevaRewards/backend/db/redemptionRepository.js:89-93 | initial stock minus current stock is the number of redemptions made since |
| `PointsDatabase.ReplayedKeyChangesNothing` | aurevaRewards/backend/db/redemptionRepository.js:26-38 | a key already redeemed is answered with the stored redemption and nothing changes |
| `PointsDatabase.BijectionIffNoBareRecord` | aurevaRewards/backend/db/pointTransactionRepository.js:62-68 | a request keeps every 'redeemed' ledger row a redemption's if and only if it is not a recordPointTransaction of type 'redeemed' that writes |
| `PointsDatabase.CheapRewardIsNeverRedeemed` | aurevaRewards/backend/db/redemptionRepository.js:63 | a reward whose cost rounds to 0 is never redeemed and the attempt changes nothing |
| `PointsDatabase.FindKeyStable` | aurevaRewards/backend/db/redemptionRepository.js:28-34 | the redemption found for a key stays the one found as more are added |
| `PointsDatabase.FindAfterStable` | aurevaRewards/backend/db/redemptionRepository.js:29-31 | the joined balance_after of a replay stays the same as the ledger grows |
| `PointsDatabase.RoundIsNearest` | aurevaRewards/backend/db/pointTransactionRepository.js:29 | the rounded amount is the nearest integer, a tie going up |
| `PointsDatabase.RequestMovesBalance` | aurevaRewards/backend/db/pointTransactionRepository.js:28-68 | a request that writes posts one row of its user, kind and rounded amount and moves that balance by exactly it: up for earned, bonus and referral, down for redeemed and expired |
| `PointsDatabase.ExecuteKeepsEarnings` | aurevaRewards/backend/db/pointTransactionRepository.js:51-53 | one request keeps every balance what was earned, given as a bonus or referred, less what was redeemed or has expired |
| `PointsRequests.RecordIsRefusedIff` | aurevaRewards/backend/db/pointTransactionRepository.js:29-68 | each reason for refusing a recordPointTransaction, and its success, holds if and only if the listed condition on amount, user, kind, balance and 32-bit range does |
| `PointsRequests.RedeemIsRefusedIff` | aurevaRewards/backend/db/redemptionRepository.js:28-61 | a redemption is a replay, or refused for its reward, if and only if the key is taken, or the reward missing or deleted, inactive, or out of stock |
| `PointsRequests.PurchaseIsRefusedIff` | aurevaRewards/backend/db/redemptionRepository.js:63-111 | and of a reward that is to be had, if and only if the user is unknown, the balance below the price, or a value outside its column |
| `PointsRequests.SerialMovesIff` | aurevaRewards/backend/db/redemptionRepository.js:99-111 | statement by statement the ledger's serial moves on if and only if a row is inserted, accepted or not |
| `PointsRequests.LostLetsGo` | aurevaRewards/backend/db/redemptionRepository.js:126-130 | a transaction that is lost is refused, writes nothing, and lets go of its own locks and nobody else's |
| `PointsMachine.BeginKeepsInv` | aurevaRewards/backend/db/redemptionRepository.js:21-23 | a new transaction keeps the lock and workspace invariant of the interleaved machine |
| `PointsMachine.LoseKeepsInv` | aurevaRewards/backend/db/redemptionRepository.js:126-130 | a transaction lost and rolled back between any two statements keeps the invariant |
| `PointsRuns.StepKeepsInv` | aurevaRewards/backend/db/redemptionRepository.js:25-123 | one statement of any enabled transaction keeps the invariant: locks have one owner, and what was read under a lock is still so |
| `PointsRuns.CommitIsSerial` | aurevaRewards/backend/db/redemptionRepository.js:89-125 | at COMMIT the workspace holds exactly what the request, run alone on the committed tables, would write and answer |
| `PointsRuns.RunIsSerial` | aurevaRewards/backend/db/redemptionRepository.js:20-132 | serializability: over every interleaving the committed tables are those of the committed requests executed one after another |
| `PointsRuns.RunIsSound` | aurevaRewards/backend/db/pointTransactionRepository.js:37-71 | over every interleaving: unbroken chains from 0, balance = last balance_after = signed sum >= 0 (what the signs are is BalanceIsEarnedLessSpent), ids in chain order, stock accounted for and >= 0, unique keys, each redemption paid |
| `PointsRuns.BalanceIsEarnedLessSpent` | aurevaRewards/backend/db/pointTransactionRepository.js:28-68 | over every interleaving from tables where it holds, a balance is the sum of the user's earned, bonus and referral rows less that of the redeemed and expired ones |
| `PointsRequests.OnlyWhatWasAskedFor` | aurevaRewards/backend/db/redemptionRepository.js:89-121 | over every interleaving the k-th committed request posted the k-th new row, of its user, kind and nearest amount; each new redemption is the user's, reward's, campaign's and key's that one of them named, at its price; users and prices are unchanged |
| `PointsRuns.OneRedemptionPerKey` | aurevaRewards/backend/db/redemptionRepository.js:25-38 | over every interleaving two callers with one key are told of the same stored redemption and at most one that it was made now |
| `PointsRuns.RunKeepsAnswers` | aurevaRewards/backend/db/redemptionRepository.js:125 | what a finished caller was told stays true of the tables, over every run |
| `PointsRuns.AnswerIsSerialIffNotOvertaken` | aurevaRewards/backend/db/redemptionRepository.js:26-38 | a refusal or replay is what the request alone would get at that moment, if and only if its key was not redeemed after it had looked |
| `PointsRuns.RedeemedRowsAreRedemptions` | aurevaRewards/backend/db/redemptionRepository.js:95-121 | over every run redemptions and 'redeemed' rows are in bijection if and only if no committed request recorded that type directly |
| `PointsRuns.FurthestIsEnabled` | aurevaRewards/backend/db/redemptionRepository.js:40-76 | locks go reward, balance, key, so a transaction that has come furthest never waits |
| `PointsRuns.NeverStuck` | aurevaRewards/backend/db/redemptionRepository.js:40-121 | a reachable state with unfinished transactions has one that can step |
| `PointsRuns.FurthestFinishes` | aurevaRewards/backend/db/redemptionRepository.js:40-123 | left to run, the furthest transaction finishes without waiting for anyone |
| `PointsRuns.AllCanFinish` | aurevaRewards/backend/db/redemptionRepository.js:40-123 | from every state of the invariant all transactions can finish without losing any |
| `PointsRaces.OvertakenAnswer` | aurevaRewards/backend/db/redemptionRepository.js:60-121 | an overtaken redemption is told what a lone one without the key check would be, with KeyTaken in place of success |
| `PointsRaces.FurthestIsDone` | aurevaRewards/backend/db/redemptionRepository.js:40-132 | left to run, a transaction that has come furthest leaves the tables and gets the answer of the request run alone on them, or, overtaken, leaves them alone and is refused |
| `PointsRaces.AloneIsExecute` | aurevaRewards/backend/db/redemptionRepository.js:20-132 | with no other transaction live the statements of a request, from BEGIN on, leave and answer what the request alone does |
| `PointsRaces.RacingRedemptions` | aurevaRewards/backend/db/redemptionRepository.js:25-121 | of two requests with one key that have both looked it up, the first to run is answered as if alone and the second is refused, on every starting table |
| `PointsRaces.KeyTakenIsReached` | aurevaRewards/backend/db/redemptionRepository.js:25-121 | such a run from sound tables: one redemption is made and its repeat ends with the unique key's error, where a lone run would replay it |
| `PointsStore.Store.EnsureBalance` | aurevaRewards/backend/db/redemptionRepository.js:67-71 | creates a zero balance row exactly when there is none and the user exists |
| `PointsStore.Store.InsertLedger` | aurevaRewards/backend/db/redemptionRepository.js:99-111 | a row the CHECKs accept is appended and copied to the balance by the trigger; another changes nothing; the serial moves on either way |
| `PointsStore.Store.Rollback` | aurevaRewards/backend/db/redemptionRepository.js:126-128 | all five tables are as they were saved; the serial is not rolled back |
| `PointsStore.Store.RecordPointTransaction` | aurevaRewards/backend/db/pointTransactionRepository.js:20-78 | the statements, run alone, leave and answer exactly what Execute says |
| `PointsStore.Store.RedeemReward` | aurevaRewards/backend/db/redemptionRepository.js:20-132 | the statements, run alone, leave and answer exactly what Execute says, error paths included |
| `DistributionJobs.AttemptKeepsPartition` | aurevaRewards/backend/services/rewardDistributionJobService.js:116-154 | a pass keeps successful and pending a partition of the recipients; pending becomes a subsequence of the previous pending |
| `DistributionJobs.AttemptKeepsCounters` | aurevaRewards/backend/services/rewardDistributionJobService.js:86-156 | attemptsMade is retryCount while waiting and retryCount + 1 at the end; the status after a pass is retrying, completed or failed |
| `DistributionJobs.AttemptKeepsJobInv` | aurevaRewards/backend/services/rewardDistributionJobService.js:86-156 | a pass over a waiting job keeps everything a job must satisfy |
| `DistributionJobs.EndedJobs` | aurevaRewards/backend/services/rewardDistributionJobService.js:126-156 | 'completed' means everyone paid once; 'failed' means every leftover recipient is in all maxRetries + 1 failure histories |
| `DistributionJobs.ProcessingUsesUpWork` | aurevaRewards/backend/services/rewardDistributionJobService.js:79-157 | each processNextJob on a non-empty queue strictly lowers the sum of attempts left |
| `DistributionJobs.ConservesIffDistinct` | aurevaRewards/backend/services/rewardDistributionJobService.js:116-124 | a new job conserves its recipients whatever the replies if and only if their ids are distinct |
| `DistributionJobs.AttemptIsReported` | aurevaRewards/backend/services/rewardDistributionJobService.js:126-156 | after a pass failed and lastError are its failures and the first of their errors if it left any, and empty otherwise |
| `DistributionJobs.FailuresAreErrors` | aurevaRewards/backend/services/rewardDistributionJobService.js:107-112 | a pass's failures are exactly the errors processRecipient threw in it, each with its recipient and message |
| `DistributionJobs.FirstErrorIsTold` | aurevaRewards/backend/services/rewardDistributionJobService.js:134-139 | lastError is the first error thrown in the pass, and null if and only if none was |
| `DistributionJobs.NamesAreDistinctIff` | aurevaRewards/backend/services/rewardDistributionJobService.js:48-50 | plain strings become recipients with these ids, distinct if and only if the strings are |
| `DistributionJobs.FirstCallsAreTheRequest` | aurevaRewards/backend/services/rewardDistributionJobService.js:48-106 | the i-th call of a job's first pass is for the i-th recipient asked for, string or object, whatever the replies |
| `DistributionJobs.OnePassPaysTheRequest` | aurevaRewards/backend/services/rewardDistributionJobService.js:48-132 | recipients of different ids, all paid: one pass ends 'completed' with successful exactly them, in order |
| `DistributionJobs.OnePassPaysTheNames` | aurevaRewards/backend/services/rewardDistributionJobService.js:48-132 | for any pairwise different strings that is a completed job whose successful ids are the strings in order, the i-th call naming the i-th |
| `DistributionJobs.MissingJobIsPassedOver` | aurevaRewards/backend/services/rewardDistributionJobService.js:80-84 | an empty queue or an id without a job costs one call and nothing else |
| `JobRuns.TryKeepsSuccess` | aurevaRewards/backend/services/rewardDistributionJobService.js:96-106 | a pass's next call goes to a recipient to whom no earlier call for the job has succeeded |
| `JobRuns.StepKeepsInv` | aurevaRewards/backend/services/rewardDistributionJobService.js:74-156 | one statement of any call, or its death there, keeps every job's partition and counters, no call after success, one call per job, and each waiting job in exactly one place |
| `JobRuns.RunKeepsInv` | aurevaRewards/backend/services/rewardDistributionJobService.js:37-157 | the same over every interleaving of any number of enqueueJob and processNextJob calls, each dying between any two of its statements or not at all |
| `JobRuns.MatchesIffNothingApart` | aurevaRewards/backend/services/rewardDistributionJobService.js:74-148 | at any moment the queue holds exactly the queued and retrying jobs, each once, if and only if no call is between lPop and its save or between a save and its rPush, and none has died there |
| `JobRuns.QueueMatchesIff` | aurevaRewards/backend/services/rewardDistributionJobService.js:74-148 | between those windows the queue matches the statuses if and only if no call has died in one |
| `JobRuns.LostIffDiedInWindow` | aurevaRewards/backend/services/rewardDistributionJobService.js:74-148 | a run has lost a job if and only if one of its deaths is in a window |
| `JobRuns.WindowDeathLoses` | aurevaRewards/backend/services/rewardDistributionJobService.js:79-91 | a death in a window leaves a job that says queued or retrying and is in no queue |
| `JobRuns.LostForGood` | aurevaRewards/backend/services/rewardDistributionJobService.js:79-82 | such a job is never taken up or changed by any later call |
| `JobRuns.PopDeathLosesTheJob` | aurevaRewards/backend/services/rewardDistributionJobService.js:74-91 | such a run: a job is enqueued and popped, its worker dies, and it says queued for ever |
| `JobRuns.DieKeepsInv` | aurevaRewards/backend/services/rewardDistributionJobService.js:86-114 | a death at any statement keeps everything else: partitions, counters, calls, and the other calls under way |
| `JobRuns.WholeCallIsProcessNext` | aurevaRewards/backend/services/rewardDistributionJobService.js:79-157 | the statements of one processNextJob, undisturbed, are one step of the specification, whatever other calls are under way |
| `JobRuns.WholeSubmitIsEnqueue` | aurevaRewards/backend/services/rewardDistributionJobService.js:74-76 | so are enqueueJob's save and push |
| `JobRuns.ProcessKeepsInv` | aurevaRewards/backend/services/rewardDistributionJobService.js:79-157 | an undisturbed call keeps the service invariant, a job being queued exactly once while queued or retrying and not at all otherwise |
| `JobRuns.QueueDrains` | aurevaRewards/backend/services/rewardDistributionJobService.js:79-157 | calling processNextJob undisturbed as often as there is work empties the queue, whatever the replies |
| `JobService.RewardDistributionJobService.constructor` | aurevaRewards/backend/services/rewardDistributionJobService.js:7-20 | a new service has an empty queue and store |
| `JobService.RewardDistributionJobService.EnqueueJob` | aurevaRewards/backend/services/rewardDistributionJobService.js:37-77 | stores and queues a new job, or refuses an empty list, as the specification says |
| `JobService.RewardDistributionJobService.TryAll` | aurevaRewards/backend/services/rewardDistributionJobService.js:93-114 | the loop tries each pending recipient once, in order, and separates successes from failures |
| `JobService.RewardDistributionJobService.Merge` | aurevaRewards/backend/services/rewardDistributionJobService.js:116-124 | the loop appends the successes whose id is new |
| `JobService.RewardDistributionJobService.Conclude` | aurevaRewards/backend/services/rewardDistributionJobService.js:126-156 | the job completes, is due again or has failed, as the specification says |
| `JobService.RewardDistributionJobService.ProcessNextJob` | aurevaRewards/backend/services/rewardDistributionJobService.js:79-157 | one call is one step of the specification, queue, store and calls included |
| `EventIngest.RunKeepsInv` | aurevaRewards/backend/services/contractEventService.js:162-199 | over every run of publications, connections, replays, crashes, dispatch results and retries: rows are storable events in stream order with distinct keys, and what cursor and connection have passed is covered |
| `EventIngest.RecordedExactlyOnce` | aurevaRewards/backend/services/contractEventService.js:162-190 | every storable event from the first stored connection's start up to the stored cursor has its key in exactly one row |
| `EventIngest.OwnRowIff` | aurevaRewards/backend/services/contractEventService.js:162-190 | any event from there up to the cursor gets its own row if and only if its type is known and accepted by the CHECK and no earlier storable event since then shares its (transaction, ledger) |
| `EventIngest.RefusedTypeIsPassed` | aurevaRewards/database/008_create_contract_events.sql:7 | a run in which the cursor passes a typed event without a row, its type being refused |
| `EventIngest.CursorNeverMovesBack` | aurevaRewards/backend/db/contractEventRepository.js:79-86 | no step moves the stored cursor backward or changes a stored row's event |
| `EventIngest.ConnectResumes` | aurevaRewards/backend/services/contractEventService.js:65 | a stream resumes at 'now' while nothing is stored, else just after the stored cursor or where the server replays from; a live one stays |
| `EventIngest.NothingLostIff` | aurevaRewards/backend/services/contractEventService.js:65 | with distinct keys nothing since the very first connection is lost if and only if no storable event came before the connection that stored the first cursor |
| `EventIngest.ReconnectBeforeCursorLosesEvent` | aurevaRewards/backend/services/contractEventService.js:65 | a run that loses an event: crash and reconnect at 'now' before any cursor is stored |
| `EventIngest.RetriesAreBounded` | aurevaRewards/backend/services/contractEventService.js:384-400 | over every run a row fails at most max(1, maxRetries) times and once more for each round of the retry loop open at once, handler included |
| `EventIngest.BoundIsReached` | aurevaRewards/backend/services/contractEventService.js:384-400 | for every maxRetries and number of open rounds a run in which a row fails exactly that often |
| `EventDispatches.SuccessIsNotEligible` | aurevaRewards/backend/db/contractEventRepository.js:104-113 | a row whose dispatch has returned is to be taken up by no query, whatever maxRetries is |
| `EventDispatches.SuccessSettlesIff` | aurevaRewards/backend/services/contractEventService.js:192-194 | when a dispatch returns the row is processed, and in nobody's hands if and only if nobody else had it |
| `EventDispatches.SettledForGood` | aurevaRewards/backend/db/contractEventRepository.js:143-152 | a processed row that nobody has in hand stays as it is: whatever follows, no query returns it and no dispatch of it returns again |
| `EventDispatches.ReturnIsFinalIff` | aurevaRewards/backend/services/contractEventService.js:385-395 | a dispatch that has returned is the row's last in every continuation if and only if neither its handler nor another open round had the row in hand |
| `EventDispatches.OneRoundSettles` | aurevaRewards/backend/services/contractEventService.js:385-395 | with at most one round open and the row's handler done, a success in the round settles it |
| `EventDispatches.CrashSettles` | aurevaRewards/backend/services/contractEventService.js:10-16 | a crash changes nothing stored and takes all handlers and rounds with it, so that exactly the processed rows are settled |
| `EventDispatches.HandlerRacesRound` | aurevaRewards/backend/services/contractEventService.js:192-194 | a run with one open round in which a processed row is failed again: the round took it up while its handler was at it |
| `EventDispatches.DispatchesAreBounded` | aurevaRewards/backend/services/contractEventService.js:384-400 | over every run at most 1 + max(1, maxRetries) * (rounds open at once) dispatches of a row return or throw, successes included |
| `EventDispatches.DispatchBoundIsReached` | aurevaRewards/backend/services/contractEventService.js:384-400 | for every maxRetries and number of open rounds a run with exactly that many |
| `EventStore.ExtractEventType` | aurevaRewards/backend/services/contractEventService.js:297-331 | the loop finds tag:name from two decodable topics, else the non-empty plain type, else nothing |
| `EventStore.StructuredType` | aurevaRewards/backend/services/contractEventService.js:299-326 | two topics or more, the first two spelling something, symbol or plain text: the type is both in lower case, joined by a colon |
| `EventStore.LegacyType` | aurevaRewards/backend/services/contractEventService.js:328-330 | any other event has its plain type in lower case, or none when that is empty |
| `EventStore.ColonSeparates` | aurevaRewards/backend/services/contractEventService.js:321-323 | for tags without a colon the joined type determines tag and name |
| `EventStore.ContractEventRepository.InsertEvent` | aurevaRewards/backend/db/contractEventRepository.js:70-76 | inserts exactly when the type is accepted and no row has the key |
| `EventStore.ContractEventRepository.RecordEventAndUpdateCursor` | aurevaRewards/backend/db/contractEventRepository.js:57-95 | row and cursor change together or not at all |
| `EventStore.ContractEventRepository.MarkEventProcessed` | aurevaRewards/backend/db/contractEventRepository.js:104-113 | marks that row processed, which no later query returns (SuccessIsNotEligible), and changes nothing else |
| `EventStore.ContractEventRepository.MarkEventFailed` | aurevaRewards/backend/db/contractEventRepository.js:123-134 | marks that row failed with one more retry and changes nothing else |
| `EventStore.ContractEventRepository.GetPendingEvents` | aurevaRewards/backend/db/contractEventRepository.js:143-152 | returns exactly the pending rows and the failed ones below the limit, oldest first |
| `EventIngest.PendingRows` | aurevaRewards/backend/db/contractEventRepository.js:143-152 | ascending, and every row returned is pending or failed below the limit |
| `EventIngest.PendingRowsAreAll` | aurevaRewards/backend/db/contractEventRepository.js:143-152 | a row is returned if and only if it is pending or failed below the limit |
| `EventStore.ContractEventRepository.HandleRawEvent` | aurevaRewards/backend/services/contractEventService.js:162-199 | alone, handling an event leaves the tables the specification says, for every outcome of insert and dispatch |
| `EventStore.ContractEventRepository.RetryRound` | aurevaRewards/backend/services/contractEventService.js:384-399 | a round takes up each pending row once, in order, and marks it by its result |
| `EventStore.StatementsAreHandleRawEvent` | aurevaRewards/backend/services/contractEventService.js:162-199 | the interleaved machine's statements, undisturbed, do what HandleRawEvent does and move on |
| `EventStore.RoundIsRetryRound` | aurevaRewards/backend/services/contractEventService.js:384-399 | the machine's query and one round's retries, undisturbed, do what RetryRound does, whatever other rounds are open |
| `EventOverlap.MovesKeepInv` | aurevaRewards/backend/services/contractEventService.js:80-87 | over every run of overlapping handlers, broken connections and deaths a row is a storable event's and a dedup key has at most one |
| `EventOverlap.BrokenStreamResumes` | aurevaRewards/backend/services/contractEventService.js:65 | a broken stream goes on from just after the stored cursor, or from 'now', the handlers under way going on |
| `EventOverlap.MoveIsSafeIff` | aurevaRewards/backend/services/contractEventService.js:65-94 | from a state where nothing is lost a step loses an event if and only if it is a death with a new event under way at or before the stored cursor (or no cursor), or a connection at 'now' past events that have arrived |
| `EventOverlap.NothingLostIffNoLosingMove` | aurevaRewards/backend/services/contractEventService.js:138-190 | over whole runs, with distinct keys and connections that end with their process: every storable event since the first connection is recorded or under way if and only if no such step was taken |
| `EventOverlap.NothingLostWithoutLosingMove` | aurevaRewards/backend/services/contractEventService.js:80-94 | without such a step nothing is lost, broken connections with their handlers going on included |
| `EventOverlap.DeathLosesForGood` | aurevaRewards/backend/services/contractEventService.js:65-69 | what a death loses is never handed to a handler or recorded again |
| `EventOverlap.SafeIsRecordedOnce` | aurevaRewards/backend/services/contractEventService.js:138-150 | once the handlers are through, what is not lost has its key in exactly one row |
| `EventOverlap.LaterCommitsFirst` | aurevaRewards/backend/db/contractEventRepository.js:79-86 | two events under way, the later one committed first: a death then loses the earlier one, and its commit would move the stored cursor back |
| `SlidingWindow.ScriptIsRule` | aurevaRewards/backend/middleware/slidingRateLimiter.js:32-56 | with pruning and key expiry the script admits exactly when fewer than max of all past admissions lie in (now - window, now], and reports how many do |
| `SlidingWindow.ExpiryLosesNothing` | aurevaRewards/backend/middleware/slidingRateLimiter.js:151 | a key that has expired after window + 1000 ms held no admission that could still count |
| `SlidingWindow.RunKeepsLimit` | aurevaRewards/backend/middleware/slidingRateLimiter.js:40-53 | over every run every half-open interval as long as the window holds at most max admissions |
| `SlidingWindow.BackwardClockBreaksLimit` | aurevaRewards/backend/middleware/slidingRateLimiter.js:41 | for every limit above 1 and window of 2 ms or more, a run with a clock that goes back after which some window holds max + 1 admissions |
| `SlidingWindow.MoreDriftBreaksLimit` | aurevaRewards/backend/middleware/slidingRateLimiter.js:151 | for every window and limit, if Redis' clock gains more than 1000 ms a full burst and one request at the window's end are all admitted: the 1000 ms of the TTL are what the limit needs |
| `SlidingWindow.NextAdmittedIffOldestGone` | aurevaRewards/backend/middleware/slidingRateLimiter.js:46-49 | after a rejection and quiet, the next request is admitted if and only if the oldest score has aged out |
| `SlidingWindow.ClampsAreIdle` | aurevaRewards/backend/middleware/slidingRateLimiter.js:115-117 | with the oldest score in the window neither clamp of Retry-After changes its value |
| `SlidingWindow.RetryAfterIsTight` | aurevaRewards/backend/middleware/slidingRateLimiter.js:105-121 | waiting Retry-After seconds is enough, a second less is not |
| `SlidingWindow.RetryAfterIsClamped` | aurevaRewards/backend/middleware/slidingRateLimiter.js:105-121 | for any bucket and clock Retry-After is between one second and the window, and within it the wait rounded up |
| `RateLimiter.Limiter.RunScript` | aurevaRewards/backend/middleware/slidingRateLimiter.js:32-56 | the script's commands leave and return what the specification says |
| `RateLimiter.Limiter.Handle` | aurevaRewards/backend/middleware/slidingRateLimiter.js:137-175 | a request is let through exactly when the script admits; the headers are the remaining count, the reset times and Retry-After |
| `LoginThrottle.RunKeepsBounded` | aurevaRewards/backend/middleware/abuseDetection.js:99-149 | over every run with at most K logins in flight, counted and pending failures stay below softThreshold + K, across counter expiry |
| `LoginThrottle.NeverBlocked` | aurevaRewards/backend/routes/auth.js:152-191 | while K <= hardThreshold - softThreshold nobody is ever blocked |
| `LoginThrottle.BlockReachableIff` | aurevaRewards/backend/middleware/abuseDetection.js:137-149 | the hard block can be reached if and only if more than hardThreshold - softThreshold logins may be in flight |
| `LoginThrottle.RunKeepsOrder` | aurevaRewards/backend/middleware/abuseDetection.js:78-87 | over every run each request is at one stage, and a counter without a TTL has at most one request told 1 |
| `LoginThrottle.RequestCanLeave` | aurevaRewards/backend/middleware/abuseDetection.js:99-149 | a request under way can be answered, and is then at no stage: soft-locked, passed, succeeded, or failed and counted |
| `LoginThrottle.BlockedServesNobody` | aurevaRewards/backend/middleware/abuseDetection.js:103-109 | until the block expires no new request gets past it, in any run |
| `LoginThrottle.SoftLockServesNobody` | aurevaRewards/backend/middleware/abuseDetection.js:114-124 | until the counter expires no request passes a reached soft threshold, in any run |
| `LoginThrottle.ServedAfterExpiry` | aurevaRewards/backend/middleware/abuseDetection.js:99-129 | once counter and block have expired the next request is served |
| `LoginThrottle.AbandonedIffFirstDied` | aurevaRewards/backend/middleware/abuseDetection.js:78-87 | over every run the counter stands with no TTL and nobody to set one if and only if a process died between the INCR that gave 1 and its EXPIRE |
| `LoginThrottle.ExpiresIff` | aurevaRewards/backend/middleware/abuseDetection.js:78-87 | a counter above 0 can ever go back to 0 if and only if it is not abandoned so |
| `LoginThrottle.ShutOutForGood` | aurevaRewards/backend/middleware/abuseDetection.js:114-124 | an abandoned counter at the soft threshold lets no request pass in any continuation |
| `LoginThrottle.DeathShutsOut` | aurevaRewards/backend/middleware/abuseDetection.js:78-124 | for every threshold such a run, with no block set |
| `LoginThrottle.AbuseDetection.CheckIpBlock` | aurevaRewards/backend/middleware/abuseDetection.js:99-129 | an undisturbed check is the machine's arrival and read |
| `LoginThrottle.AbuseDetection.Increment` | aurevaRewards/backend/middleware/abuseDetection.js:78-87 | counts one more and sets the expiry with the first |
| `LoginThrottle.AbuseDetection.RecordFailedLogin` | aurevaRewards/backend/middleware/abuseDetection.js:137-149 | an undisturbed record is the machine's failure and its follow-up |
| `FieldEncryption.Base64RoundTrip` | aurevaRewards/backend/lib/encryption.js:134 | base64 text of at least 28 bytes passes isEncrypted and decodes to the same bytes |
| `FieldEncryption.EncodedLength` | aurevaRewards/backend/lib/encryption.js:276 | encoded text has four characters for every three bytes or part of them |
| `FieldEncryption.PadBitsAreZero` | aurevaRewards/backend/lib/encryption.js:134 | the last letter's unused bits are zero |
| `FieldEncryption.BlobShapeIff` | aurevaRewards/backend/lib/encryption.js:281-285 | isEncrypted holds if and only if the text has 40 characters or more, base64 letters and then only padding |
| `FieldEncryption.EncryptsIffKeyFits` | aurevaRewards/backend/lib/encryption.js:120-123 | a key encrypts if and only if it has 32 bytes |
| `FieldEncryption.EncryptRoundTrip` | aurevaRewards/backend/lib/encryption.js:120-135 | what a key encrypts is recognised as encrypted and decrypts to the plaintext under that key, for every plaintext |
| `FieldEncryption.OtherKeyFails` | aurevaRewards/backend/lib/encryption.js:220-228 | under the other key the tag check fails |
| `FieldEncryption.DualKeyRead` | aurevaRewards/backend/lib/encryption.js:165-198 | during a rotation a sealed value reads the same whichever key sealed it, and the flag says which (for other texts FallbackIffPrimaryFails) |
| `FieldEncryption.FallbackIffPrimaryFails` | aurevaRewards/backend/lib/encryption.js:165-198 | for every text a read that succeeds says it fell back if and only if the primary key alone does not read it; then there is a previous key, which does |
| `FieldEncryption.FallbackIffSealedByPrevious` | aurevaRewards/backend/lib/encryption.js:165-198 | the flag is set exactly for a blob that the previous key sealed and the primary did not; never for legacy plaintext |
| `FieldEncryption.RekeyingSettles` | aurevaRewards/backend/lib/prismaEncryptionMiddleware.js:131-138 | what is written in place of any text read reads the same, and never falls back again |
| `FieldEncryption.TooShortForABlob` | aurevaRewards/backend/lib/encryption.js:276 | text shorter than the blob of an empty plaintext is never taken for one |
| `FieldEncryption.OpensIffSealed` | aurevaRewards/backend/lib/encryption.js:220-228 | a blob opens under a key if and only if its bytes are the IV, tag and ciphertext that key made of some plaintext |
| `FieldEncryption.ReadFailsIff` | aurevaRewards/backend/lib/encryption.js:170-203 | a read fails if and only if the text is blob-shaped and no key at hand has sealed the bytes it decodes to |
| `FieldEncryption.LegacyPlaintextReadsIff` | aurevaRewards/backend/lib/encryption.js:170-173 | a legacy plaintext reads as itself if and only if it is not blob-shaped |
| `FieldEncryption.AddressIsNotABlob` | aurevaRewards/backend/lib/encryption.js:281-285 | text with an @ is never taken for a blob |
| `FieldEncryption.LettersAreABlob` | aurevaRewards/backend/lib/encryption.js:281-285 | 40 or more letters and digits always are |
| `FieldEncryption.IdealCiphersExist` | aurevaRewards/backend/lib/encryption.js:220-228 | the assumptions on the cipher can be met together, for every two different keys of one size |
| `BatchPass.NextRows` | aurevaRewards/scripts/encrypt-existing-rows.js:250-264 | moving the cursor to a row leaves the query exactly the rows with a value after it |
| `BatchPass.AppliedRows` | aurevaRewards/scripts/encrypt-existing-rows.js:268-313 | after n turns exactly the first n rows with a value are migrated and the others are as they were |
| `BatchPass.FullPassRows` | aurevaRewards/scripts/encrypt-existing-rows.js:248-314 | a whole pass gives every row its own turn and nothing else |
| `BatchPass.Count` | aurevaRewards/scripts/encrypt-existing-rows.js:146-168 | updated, skipped and failed add up to the rows with a value |
| `BatchPass.CountersTellTheTable` | aurevaRewards/scripts/encrypt-existing-rows.js:146-168 | updated and failed are the numbers of rows of the whole table that were rewritten, and whose decision or UPDATE threw |
| `BatchPass.PassWritesWhatItCounts` | aurevaRewards/scripts/encrypt-existing-rows.js:272-310 | a pass that writes leaves the decided value in each row it counts as updated and every other row alone |
| `BatchPass.DryRunChangesNothing` | aurevaRewards/scripts/encrypt-existing-rows.js:293-306 | a dry run leaves the table alone |
| `BatchPass.DryRunCounts` | aurevaRewards/scripts/encrypt-existing-rows.js:293-308 | a dry run counts what a pass without failing UPDATEs would count |
| `BatchScript.Table.SelectBatch` | aurevaRewards/scripts/encrypt-existing-rows.js:250-264 | returns the first rows with a value beyond the cursor, at most the limit |
| `BatchScript.Table.Update` | aurevaRewards/scripts/encrypt-existing-rows.js:295-298 | changes exactly the row with that id |
| `BatchScript.Progress.Tick` | aurevaRewards/scripts/encrypt-existing-rows.js:157-160 | adds the batch to the counters |
| `BatchScript.ProcessRow` | aurevaRewards/scripts/encrypt-existing-rows.js:274-309 | one row is updated, skipped or failed as its decision, dry run and UPDATE say |
| `BatchScript.ProcessBatch` | aurevaRewards/scripts/encrypt-existing-rows.js:272-310 | a batch gives each of its rows its turn, in order |
| `BatchScript.ProcessTable` | aurevaRewards/scripts/encrypt-existing-rows.js:230-317 | for every batch size the loop examines each row with a value exactly once, in id order, and leaves and counts what a whole pass should |
| `KeyRotation.UpdateKeepsReading` | aurevaRewards/scripts/encrypt-existing-rows.js:192-214 | an update keeps what the row reads as, and from then on the new key alone gives it |
| `KeyRotation.SkippedReadsAlike` | aurevaRewards/scripts/encrypt-existing-rows.js:205-217 | what is skipped reads under the new key alone as it did before |
| `KeyRotation.SettledIsSkipped` | aurevaRewards/scripts/encrypt-existing-rows.js:205-208 | what a pass has written or skipped every later pass with those keys skips |
| `KeyRotation.SameKeyNeverSettles` | aurevaRewards/scripts/encrypt-existing-rows.js:202-214 | with the same key given twice every pass rewrites every row it wrote |
| `KeyRotation.LegacyHexSecretIsLost` | aurevaRewards/scripts/encrypt-existing-rows.js:192-217 | a plain-text hex secret of 40 or more digits is skipped by the initial pass, never reads as itself again, and fails to read unless the key sealed the very bytes it spells |
| `KeyRotation.InterruptedPassKeepsReadings` | aurevaRewards/scripts/encrypt-existing-rows.js:248-314 | wherever a pass stops, the dual-key read of every row is unchanged |
| `KeyRotation.CleanPassNeedsOnlyNewKey` | aurevaRewards/scripts/encrypt-existing-rows.js:192-317 | after a whole pass without failures the new key alone reads each row exactly as both keys did before |
| `KeyRotation.AttemptsKeepReadings` | aurevaRewards/scripts/encrypt-existing-rows.js:248-314 | so do any number of interrupted, failing and dry passes one after another |
| `KeyRotation.RerunCompletesTheRotation` | aurevaRewards/scripts/encrypt-existing-rows.js:192-317 | after any such history one clean pass leaves every row to the new key alone, reading as the original did |
| `KeyRotation.RerunEncryptsEverything` | aurevaRewards/scripts/encrypt-existing-rows.js:192-317 | after any such history and one clean pass nothing is stored in plain text: every value is a blob, and the new key's own if and only if the original row could be read |
| `KeyRotation.SecondPassUpdatesNothing` | aurevaRewards/scripts/encrypt-existing-rows.js:202-217 | a pass after a clean one updates nothing, fails nowhere and leaves the table alone |
| `KeyRotation.RotateColumn` | aurevaRewards/scripts/encrypt-existing-rows.js:230-317 | the loop itself, run without failures, has that effect |
| `HistoryPages.SafeLimit` | aurevaRewards/backend/db/transactionRepository.js:508 | the page size is between 1 and 100, and the requested one when that is in range |
| `HistoryPages.WalletRowsOf` | aurevaRewards/backend/db/transactionRepository.js:541 | a row is listed if and only if the wallet sent or received it |
| `HistoryPages.HeldBoundary` | aurevaRewards/backend/db/transactionRepository.js:519-521 | when the boundary holds the next page starts at the next row |
| `HistoryPages.LostBoundary` | aurevaRewards/backend/db/transactionRepository.js:552-557 | when it does not, it starts elsewhere or nowhere |
| `HistoryPages.PagesSoFar` | aurevaRewards/backend/db/transactionRepository.js:507-560 | while the boundaries hold, n pages give the first n * limit rows in order, each once |
| `HistoryPages.TraversalIsCompleteIff` | aurevaRewards/backend/db/transactionRepository.js:507-560 | following nextCursor ends with exactly the rows if and only if every page boundary survives the cursor's millisecond timestamp; then in max(1, ceil(n / limit)) pages |
| `HistoryPages.WalletHistoryIsCompleteIff` | aurevaRewards/backend/db/transactionRepository.js:507-560 | the same of a wallet's rows in either direction, for any requested limit |
| `HistoryPages.PreciseTraversal` | aurevaRewards/backend/db/transactionRepository.js:507-560 | with whole-millisecond timestamps it always does, in either direction |
| `HistoryPages.AscendingIsReversedDescending` | aurevaRewards/backend/db/transactionRepository.js:509-546 | ascending is the reverse of descending, whatever the two page sizes |
| `HistoryPages.InsertsDoNotDisturb` | aurevaRewards/backend/db/transactionRepository.js:519-521 | newer rows inserted between pages leave a descending traversal as it would have been |
| `HistoryPages.DescendingSurvivesInserts` | aurevaRewards/backend/db/transactionRepository.js:507-560 | so it returns exactly the rows present at its first page, under the same condition |
| `HistoryPages.SubMillisecondRowIsSkipped` | aurevaRewards/backend/db/transactionRepository.js:552-557 | two rows in one millisecond a page apart: descending never shows the second |
| `HistoryPages.SubMillisecondRowRepeats` | aurevaRewards/backend/db/transactionRepository.js:552-557 | ascending, a row between milliseconds is its own successor |
| `Transactions.CleanMeans` | aurevaRewards/backend/db/transactionRepository.js:358-406 | in a clean table a transaction is refunded if and only if exactly one refund row references it, and no refund is refunded |
| `Transactions.RefundKeepsClean` | aurevaRewards/backend/db/transactionRepository.js:365-406 | a refund keeps the table clean |
| `Transactions.ReconcileKeepsClean` | aurevaRewards/backend/db/transactionRepository.js:441-449 | a reconciliation keeps every pair |
| `Transactions.RecordKeepsCleanIff` | aurevaRewards/backend/db/transactionRepository.js:93-146 | a recording keeps the table clean if and only if it is neither a refund row nor a 'refunded' one |
| `Transactions.RefundKeepsSums` | aurevaRewards/backend/db/transactionRepository.js:383-396 | a refund leaves every wallet's net over the pairs, and the reconciled total, as they were |
| `Transactions.ReceiptIsTheDifference` | aurevaRewards/backend/db/transactionRepository.js:451-460 | the total a reconciliation returns is what it adds to the reconciled total |
| `Transactions.RefundIsRefusedIff` | aurevaRewards/backend/db/transactionRepository.js:329-375 | a refund of a transaction is refused as duplicate, as a refund itself or as already refunded if and only if it is, in that order, and otherwise made and answered with the two rows |
| `Transactions.MissingIsNotRefunded` | aurevaRewards/backend/db/transactionRepository.js:346-356 | a refund of no transaction is refused as such, unless its own hash is taken |
| `HistoryFilters.PushMeans` | aurevaRewards/backend/db/transactionRepository.js:34-62 | pushing a parameter leaves the earlier conditions with theirs and adds one with its own |
| `HistoryFilters.ClauseMeansMatches` | aurevaRewards/backend/db/transactionRepository.js:22-70 | every placeholder has its parameter, and the clause selects exactly the matching rows |
| `RefundRuns.RunKeepsLocks` | aurevaRewards/backend/db/transactionRepository.js:342-347 | over every interleaving row and hash locks have one holder and what was read under them is still so |
| `RefundRuns.CommitIsSerial` | aurevaRewards/backend/db/transactionRepository.js:324-416 | a commit is what processRefund, alone at that moment, would have done |
| `RefundRuns.RejectionIsSerialIffNotOvertaken` | aurevaRewards/backend/db/transactionRepository.js:329-375 | a rejection is what it alone would get, if and only if the refund hash was not recorded after it had looked |
| `RefundRaces.AloneIsProcessRefund` | aurevaRewards/backend/db/transactionRepository.js:316-424 | a refund's statements, undisturbed, leave the table and end as processRefund says, every refusal included |
| `RefundRuns.LostHoldsNothing` | aurevaRewards/backend/db/transactionRepository.js:417-423 | a refund whose connection is lost changes no row and lets go of its locks |
| `RefundRuns.ReconcilesIff` | aurevaRewards/backend/db/transactionRepository.js:441-449 | a reconciliation goes through if and only if no refund holds a row it would mark |
| `RefundRuns.RunIsSerial` | aurevaRewards/backend/db/transactionRepository.js:316-461 | over every interleaving the table is what the committed events give one after another |
| `RefundRuns.RunIsClean` | aurevaRewards/backend/db/transactionRepository.js:316-424 | over every interleaving of plain recordings, refunds and reconciliations the table is clean: refunds and refunded transactions pair off, each refund its original's owner's and amount's |
| `RefundLog.RunIsTold` | aurevaRewards/backend/db/transactionRepository.js:93-461 | over every interleaving each committed recording is in the table with its owner, amount, wallets, reference and date, refunded if a refund of it committed and else as recorded but for completed turned reconciled; each committed refund stands beside its original, dated when made; there is no other row |
| `RefundLog.RefundsBelongToTheOwner` | aurevaRewards/backend/db/transactionRepository.js:383-396 | over every interleaving a refund has its original's user and merchant, so a filter on these selects both or neither, and is completed until reconciled, never pending or failed |
| `RefundRuns.EachIsCountedOnce` | aurevaRewards/backend/db/transactionRepository.js:435-461 | each transaction is on at most one receipt, exactly when reconciled, and the receipts' totals add up to the reconciled amounts |
| `RefundRuns.RunKeepsStamps` | aurevaRewards/backend/db/transactionRepository.js:441-449 | over every run, unless a recording says 'reconciled' itself, that status comes with the timestamp and a stamped row is no longer 'completed' |
| `RefundRuns.RefundsNetToZero` | aurevaRewards/backend/db/transactionRepository.js:383-396 | over every run refunded transactions and refunds together leave every wallet where it was |
| `RefundRuns.NeverStuck` | aurevaRewards/backend/db/transactionRepository.js:329-398 | while a refund is unfinished some refund can take its next statement; reconciliations, single statements here, have no waiting state and are not counted |
| `RefundRaces.RacingRefunds` | aurevaRewards/backend/db/transactionRepository.js:329-396 | of two refunds of different transactions with one refund hash, both past their look-up, the first commits and the second ends with the unique hash's error, where a lone call would be told of a duplicate |
| `RefundRaces.UniqueViolationIsReached` | aurevaRewards/backend/db/transactionRepository.js:329-396 | such a run from the empty table |
| `TransactionStore.TransactionRepository.GetTransactionByHash` | aurevaRewards/backend/db/transactionRepository.js:154-161 | finds the row with the hash |
| `TransactionStore.TransactionRepository.RecordTransaction` | aurevaRewards/backend/db/transactionRepository.js:93-146 | appends the row, or changes nothing when the hash is taken |
| `TransactionStore.TransactionRepository.ProcessRefund` | aurevaRewards/backend/db/transactionRepository.js:316-424 | the statements, run alone, leave and answer what the specification says, error paths included; whose the refund is RefundsBelongToTheOwner says |
| `TransactionStore.TransactionRepository.ReconcileTransactions` | aurevaRewards/backend/db/transactionRepository.js:435-461 | the loop marks exactly the unreconciled matches and returns them with their total |
| `CsvExport.FeedDoubled` | aurevaRewards/backend/routes/transactionHistory.js:250 | inside quotes, doubled text reads as the text |
| `CsvExport.HeaderIsCellIff` | aurevaRewards/backend/routes/transactionHistory.js:248 | printing a header unescaped is right if and only if it holds no quote |
| `CsvExport.PrintRoundTrip` | aurevaRewards/backend/routes/transactionHistory.js:247-252 | an RFC 4180 reader gives back exactly headers and cells, for any cell text |
| `CsvExport.ExportRoundTrip` | aurevaRewards/backend/routes/transactionHistory.js:235-252 | and so for every export |
| `CsvExport.ExportIsInjective` | aurevaRewards/backend/routes/transactionHistory.js:235-252 | two exports are the same text only when every cell agrees |
| `CsvExport.CellsAreUnderTheirHeaders` | aurevaRewards/backend/routes/transactionHistory.js:235-245 | looked up by its header, a cell is the transaction's value of that name |
| `CsvExport.ExportedCells` | aurevaRewards/backend/routes/transactionHistory.js:235-252 | read back, each line of the export has under each header the transaction's value of that name |
| `CanonicalJson.ReadEscaped` | aurevaRewards/backend/services/rewardIssuanceService.js:62-68 | an RFC 8259 string reader gives back every string, lone surrogates included |
| `CanonicalJson.QuotedCosts` | aurevaRewards/backend/services/rewardIssuanceService.js:62-68 | the text escapes exactly what JSON.stringify must, with two units where there is a short form and six otherwise |
| `CanonicalJson.DigitsAreLowerCase` | aurevaRewards/backend/services/rewardIssuanceService.js:62-68 | hexadecimal escapes are lower case |
| `CanonicalJson.CanonicalRoundTrip` | aurevaRewards/backend/services/rewardIssuanceService.js:62-68 | the canonical payload can be read back, for any five fields |
| `CanonicalJson.CanonicalIsInjective` | aurevaRewards/backend/services/rewardIssuanceService.js:62-68 | equal canonical texts mean equal payloads |
| `CanonicalJson.NullUserIsNotTheStringNull` | aurevaRewards/backend/services/rewardIssuanceService.js:64 | a null user differs from the user "null" |
| `CanonicalJson.CanonicalIsWellFormed` | aurevaRewards/backend/services/rewardIssuanceService.js:70-73 | the canonical text has only paired surrogates, so its UTF-8 form is its own |
| `CanonicalJson.SameKeyIffSameRequest` | aurevaRewards/backend/services/rewardIssuanceService.js:61-74 | two requests share a key if and only if they are the same request |
| `Issuance.RunKeepsInv` | aurevaRewards/backend/services/rewardIssuanceService.js:96-129 | over every interleaving of callers, crashes between any two of their statements, worker updates and completed jobs: one row per key with its creator, and the jobs added are the creators' that got that far |
| `Issuance.FirstJob` | aurevaRewards/backend/services/rewardIssuanceService.js:122-126 | when a creator adds its job none was ever added for the key, though the queue forgets completed jobs |
| `Issuance.AtMostOnce` | aurevaRewards/backend/services/rewardIssuanceService.js:107-129 | over every run a key has at most one row, one job ever and one caller told queued: true |
| `Issuance.ExactlyOneIsQueued` | aurevaRewards/backend/services/rewardIssuanceService.js:96-129 | when all callers of a key are answered exactly one was told queued: true, and every other duplicate with that row's id |
| `Issuance.DuplicateShowsTheRow` | aurevaRewards/backend/services/rewardIssuanceService.js:108-120 | whoever is told duplicate is shown its key's id and status as the table has them the moment it is answered |
| `Issuance.CallerIsAnswered` | aurevaRewards/backend/services/rewardIssuanceService.js:107-128 | any caller that is let run is answered: queued if it has made the row or finds none to be there, duplicate otherwise |
| `Issuance.RowTellsTheWork` | aurevaRewards/backend/db/rewardIssuanceRepository.js:31-49 | over every run a row counts the worker's attempts and has the status it last wrote |
| `Issuance.SerialsAreUsedUp` | aurevaRewards/backend/db/rewardIssuanceRepository.js:7-21 | over every run the serial counts every INSERT tried, refused ones too |
| `Issuance.HasJobIff` | aurevaRewards/backend/services/rewardIssuanceService.js:115-128 | a row whose creator was told queued: true has had its job; once the creator has ended the row has had none if and only if the creator crashed between the insert and queue.add |
| `Issuance.StrandedForGood` | aurevaRewards/backend/services/rewardIssuanceService.js:107-128 | a row whose creator crashed there never gets a job in any continuation, while every caller with its key that is ever answered is told duplicate of it |
| `Issuance.CrashStrandsTheRow` | aurevaRewards/backend/services/rewardIssuanceService.js:115-126 | a run where the creator crashes before the add leaves a pending row without a job, and later callers are told duplicate |
| `Issuance.CrashLeavesAJobNobodyWasToldOf` | aurevaRewards/backend/services/rewardIssuanceService.js:122-128 | a run where the creator crashes between queue.add and its answer: the row has its job and nobody was told |
| `IssuanceStore.RewardIssuances.GetIssuanceByKey` | aurevaRewards/backend/db/rewardIssuanceRepository.js:23-29 | finds the row with the key |
| `IssuanceStore.RewardIssuances.CreateIssuance` | aurevaRewards/backend/db/rewardIssuanceRepository.js:7-21 | inserts a pending row, or returns null on the unique key; the serial moves on either way |
| `IssuanceStore.RewardIssuances.UpdateStatus` | aurevaRewards/backend/db/rewardIssuanceRepository.js:31-49 | changes the status of exactly the row with that id |
| `IssuanceStore.RewardIssuances.EnqueueRewardIssuance` | aurevaRewards/backend/services/rewardIssuanceService.js:96-129 | alone, the call leaves and answers what the specification says |
| `IssuanceStore.StatementsAreEnqueue` | aurevaRewards/backend/services/rewardIssuanceService.js:96-129 | the machine's statements, undisturbed, do what the call does |
| `IssuanceStore.RepeatedRequest` | aurevaRewards/backend/services/rewardIssuanceService.js:107-111 | the same request twice is one row and a duplicate answer; another request gets its own |
| `Percentiles.NearestRank` | aurevaRewards/backend/monitoring/metricsCollector.js:99 | the element at the nearest rank is in range and is the least sample with at least p% of samples not above it |
| `Percentiles.PercentileIsUnique` | aurevaRewards/backend/monitoring/metricsCollector.js:99 | only one number is the p-th percentile |
| `Percentiles.AverageIsNearest` | aurevaRewards/backend/monitoring/metricsCollector.js:105 | the rounded average is within half a unit of the mean, a tie going up |
| `Percentiles.StatsAreOrdered` | aurevaRewards/backend/monitoring/metricsCollector.js:101-109 | min <= p50 <= p95 <= p99 <= max, and the average lies between min and max |
| `Percentiles.StatsAreUnique` | aurevaRewards/backend/monitoring/metricsCollector.js:101-109 | no other statistics describe the same samples |
| `MetricsCollector.SortedCopy` | aurevaRewards/backend/monitoring/metricsCollector.js:97 | a sorted sequence of the same samples |
| `MetricsCollector.RecordKeepsLast` | aurevaRewards/backend/monitoring/metricsCollector.js:76-86 | a recording keeps every bucket the last 1000 of its route's samples |
| `MetricsCollector.Collector.RecordResponseTime` | aurevaRewards/backend/monitoring/metricsCollector.js:76-86 | after any sequence of recordings each bucket is the last 1000 of its samples, oldest first |
| `MetricsCollector.Collector.GetHistogramStats` | aurevaRewards/backend/monitoring/metricsCollector.js:93-110 | null when nothing was recorded, otherwise the statistics of those samples |

## Left out

- EventStore.ExtractEventType: does not model lower-casing (a parameter), a numeric or null topic, or XDR decoding, which are outside the module.
- Transactions.RefundOf: campaign_id, stellar_ledger, refund_reason and metadata, which a refund only carries.
- TransactionStore.TransactionRepository.ReconcileTransactions: totals are exact; the source rounds each partial sum of doubles to seven decimals.
- MetricsCollector.Collector.GetHistogramStats: samples are integers; the source takes any number, and its sort is the library's.
- HistoryFilters.ClauseMeansMatches: an empty-string filter, which the source treats as absent, is an absent one here.
- BatchScript.ProcessTable: the rows of a batch take their turns in order; the source starts them together on one connection, which queues them in that order. Application writes between a batch's read and its UPDATE, which the UPDATE would overwrite, are not modelled.
- LoginThrottle.AbuseDetection.CheckIpBlock: Redis failures, on which the source lets the request through, and the Retry-After value of the soft lock.
- RateLimiter.Limiter.Handle: the white list, a closed Redis connection and Redis errors, on all of which the source lets the request through.
- RefundRuns.NeverStuck: a reconciliation is one statement that waits for none of its rows in particular; two UPDATEs that lock rows in different orders, and could wait for each other, are not modelled.
- EventOverlap.MovesKeepInv: statuses, dispatch and the retry loop are in EventIngest only; a row is dispatched by the handler that inserted it, so overlapping handlers do not share one.
- HistoryPages.PagesSoFar: base64 and JSON of the cursor are not modelled; a cursor that does not decode restarts the listing.
- JobService.RewardDistributionJobService.EnqueueJob: merchant, campaign, amount, metadata and timestamps, which the queue only carries. JobRuns has the failure between saving a job and pushing its id.
- IssuanceStore.RewardIssuances.UpdateStatus: tx_hash and error_message are part of the status; updated_at is left out.
- HTTP routing, DTO checks, headers, logging, e-mail, sockets, the front end and deployment scripts: plumbing.
- Stellar and Soroban calls, BullMQ, bcrypt, JWT and AES themselves: libraries, oracles here.
- The Soroban contracts: their source is not part of this model.
- The Node fallback stream and non-crash database errors during ingest; the stream map, which only holds handles.
- Background re-keying in prismaEncryptionMiddleware.js, checkRewardFarming, clearAll, processRewardIssuance and the dead-letter worker.
- Raw ledger inserts that bypass the repository (daily login bonus, onboarding), and updateTransaction, which can set any status.
- getRewardsHistoryCursor, offset pagination, reports, caches, counters and gauges: they would add only easy members.
