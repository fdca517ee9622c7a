# Protocols of the SaaS backend, modelled and proved

The backend keeps its hard logic in small protocols over database tables: byte quotas that must agree with files,
savepoints, job claims, single-use refresh tokens, refund balances, entitlement tables, webhook deduplication, email
claims, uptime leases, fixed-window counters, and a few exact algorithms (a placeholder lexer, credential masking, SQL
fragments, one-time codes, tax).  This project models them in Dafny and proves what they keep, over all inputs and, for
the protocols, over every run of every interleaving.

## How the models are built

Each protocol appears twice.

* A **specification on values**: the tables as maps, one function for each statement or transaction with its own
  guards, a `Step` datatype with everything a step reads from outside (the clock, fresh random ids, results of the
  network), and `Next`/`Run`.  A step that is not enabled, or whose transaction throws, leaves the tables as they were.
  Work in flight (a completion that has claimed an intent, a worker that holds a job) is a set or multiset of tasks that
  carry what they have read, so anything may happen between two statements of one operation, and a task may crash.
* A **class** with the tables as fields, whose methods run the source's statements and loops in order and are proved
  equal to the specification functions.

On top are an invariant, a lemma that every step keeps it, and the main results about runs.

| file | what it covers |
|---|---|
| `Storage`, `StorageRuns`, `StorageService` | quota counters, usage ledger, upload intents, files and variants, three clean-ups |
| `Savepoints` | transactions nested by savepoints with reused names |
| `Placeholders` | the seven-state lexer that rewrites `$n` |
| `Jobs`, `JobLeases` | claim, reclaim, complete, fail, cron; then the same under the lease assumption |
| `RefreshRotation` | single-use refresh tokens with a replay cache |
| `Refunds`, `RefundRuns`, `RefundService` | the refund balance of an invoice |
| `Entitlements`, `EntitlementRuns`, `EntitlementService` | the entitlement table as a cache of subscriptions |
| `Webhooks` | deduplicated webhook deliveries with rollback and retry |
| `Emails`, `EmailService` | the outbox, deliveries and the calls of the provider |
| `Uptime`, `UptimeService` | leases and sweeps of uptime checks |
| `RateLimit` | fixed-window rate limiting |
| `WhereFragments`, `Conditions` | shifting and joining SQL fragments, and what the joined condition means |
| `Redaction` | masking credentials in log text |
| `Totp` | base32 secrets and time-based codes |
| `Tax` | exclusive and inclusive tax in exact arithmetic |
| `Sums`, `Basics`, `Texts` | totals over finite tables, shared types, numerals and white space |

`dafny verify dfyconfig.toml` checks everything.

## Assumptions

* One statement, and one transaction, is one atomic step.  Hashes, HMACs and encryption are injective, and random tokens
  and ids are fresh.  Identifiers matter only up to equality, so numbers stand for them.
* Amounts, byte counts and times are unbounded integers; tax rates are exact fractions.  Rounding of double-precision
  numbers is not part of the models.
* Answers of ordered queries whose order leaves ties open are parameters; any answer the `ORDER BY` allows is covered.
* Runs of storage assume that a new file's id is not the id of a file some operation in flight has read
  (`StorageRuns.ReuseNeedsSameBytes` says exactly what goes wrong otherwise).
* Runs of refunds cover one provider.  It grants once for one key, its events repeat what was granted and never revive a
  failed or canceled refund, and a refund made at the provider itself fits what was taken; its invoice may be stored
  later, or never.  A payment belongs to one invoice at the provider.  An invoice's row shows no more than was taken, and
  may lag behind.  Each request either sees every refund granted for its invoice or is refused by the provider when it
  does not fit (`RefundRuns.GrantFitsExactlyWhen` says exactly what goes wrong otherwise, and
  `RefundRuns.SeenUnlessHidden` what hides a refund).
* Nested transactions are awaited before their parent goes on (`Savepoints.ParentStatementDuringChild` says exactly what
  goes wrong otherwise).
* A webhook transaction that throws has been rolled back, so a commit is never reported as an error.

## Where an obvious claim is too strong

Each of these is kept as the code has it, with the exact condition or a concrete run.

* A completed job can be failed by a worker that lost its lock, and a sent email likewise
  (`Jobs.CompletedUnlessFailed`, `Jobs.LateFailReopensCompletedJob`, `Emails.SentUnlessLateFailure`,
  `Emails.LateFailureReopensSent`); with leases both are terminal.
* A feature entry overwrites a limit with the same key (`Entitlements.LimitIsMaximumUnlessOverwritten`,
  `Entitlements.FeatureErasesLimit`).
* The entitlement table is sound but can miss a key once a grace deadline passes
  (`EntitlementRuns.CacheMissesExactlyWhen`, `EntitlementRuns.LapsedGraceHidesTheKey`).
* A webhook whose handler is lost while processing is never processed (`Webhooks.LostEventStaysUnprocessed`).
* A URL scheme directly after another (`a://b://user:password@host`) hides its credentials from the masking scan
  (`Redaction.ScannedExactlyWhen`, `Redaction.SecondSchemeIsMissed`).
* A refund granted for a request that then fails, or made at the provider, is not in the balance until an event with its
  payment arrives; a request in between can refund too much unless the provider refuses it
  (`RefundRuns.GrantFitsExactlyWhen`, `RefundRuns.WholeBalanceNeedsAllSeen`, `RefundRuns.GivenUpRequestOverRefunds`).  An
  event that names neither payment nor invoice leaves it so (`Refunds.EventCountsExactlyWhen`).
* An idempotency key gets a second refund if an outside refund with that key was made and no event has told of it yet
  (`RefundRuns.NewKeyIsApartExactlyWhen`).
* A fragment with an OR outside parentheses takes the fragments before it into its first alternative and those after it
  into its last
  (`Conditions.OrClauseSwallows`, `Conditions.OrClauseSwallowsBoth`, `Conditions.OrFragmentBreaks`).
* A rate-limit call whose window is swept before its counting statement runs starts the count again
  (`RateLimit.CountIsTheNumberInTheWindow`, `RateLimit.NumberedUnlessRestarted`,
  `RateLimit.LateCallExceedsTheLimit`, `RateLimit.AllowedUpToDeletions`).
* Base32 gives back bytes only in multiples of five (`Totp.RoundTripExactlyWhen`); codes of no digits have one
  (`Totp.NoDigitsGivesOne`); near the epoch verification throws (`Totp.VerifiesExactly`).
* Extracting tax and adding it again can miss the gross amount (`Tax.AddingUndoesExtractingExactlyWhen`).

## Model

| member | source | states |
|---|---|---|
| `Sums.SumPut` | packages/storage/src/service.ts:421-463 | writing one row changes a total by the difference at that row, which is what every counter update relies on |
| `Storage.ReleaseIsExact` | packages/storage/src/service.ts:455-463 | in balanced tables a release never meets the clamp at zero: the counter falls by exactly the released bytes |
| `Storage.ManagedVariantsCost` | packages/storage/src/service.ts:591-627 | the variant rows persisted for an upload add up to the bytes that were charged for them |
| `Storage.ManagedRows` | packages/storage/src/service.ts:591-627 | which rows they are: an optimized image and a thumbnail, a document's preview, or none |
| `Storage.Move` | packages/storage/src/service.ts:776-899 | a transaction that changes one file's charge, its tenant's counter and the ledger by the same amount keeps all books balanced |
| `StorageRuns.StepKeeps` | packages/storage/src/service.ts:692-1927 | every statement of every operation, whoever runs it in between, keeps the counters, the ledger and every operation's readings in step |
| `StorageRuns.EveryRunKeeps` | packages/storage/src/service.ts:692-1927 | so does every run |
| `StorageRuns.EveryRunFromEmpty` | packages/storage/src/service.ts:421-463 | at any point of any run a tenant's used bytes equal its reservations plus its available bytes and variants, and equal its usage records; every file's records equal its charge |
| `StorageRuns.StepAdvances` | packages/storage/src/service.ts:1281-1442 | no step moves a file back in its life cycle, so a reservation is settled once |
| `StorageRuns.NewTaskOk` | packages/storage/src/service.ts:1129-1147 | what an operation reads when it starts is true when it reads it |
| `StorageRuns.StepWithinLimit` | packages/storage/src/service.ts:432-452 | a step leaves all tenants within their limits exactly when it is not an administrator setting one below its use |
| `StorageRuns.EveryRunWithinLimit` | packages/storage/src/service.ts:432-452 | with fixed limits no tenant ever uses more than its limit |
| `StorageRuns.ClaimedOncePerOpening` | packages/storage/src/service.ts:1129-1147 | over any run of any number of callers an upload intent is claimed at most once for each time it opens: by its creation, or by the recovery from a transient failure before it expires |
| `StorageRuns.DeleteNeedsTrueFigures` | packages/storage/src/service.ts:1663-1714 | a deletion keeps the books exactly when it charges the file's own tenant with the file's own bytes and variants |
| `StorageRuns.ReuseNeedsSameBytes` | packages/storage/src/service.ts:1639-1714 | if a caller gives the id of a purged file to a new upload intent, which is claimed and completed under a deletion of the old file in flight, the books survive that deletion exactly when tenant and bytes coincide |
| `StorageRuns.PurgeKeeps` | packages/storage/src/service.ts:1914-1922 | purging a deleted file unlinks its usage records without changing any total |
| `StorageRuns.RecoverKeeps` | packages/storage/src/service.ts:1382-1455 | a failed completion releases the reservation for permanent errors and keeps it otherwise, and the books stay balanced |
| `StorageRuns.ExpireKeeps` | packages/storage/src/service.ts:1754-1801 | expiring an intent and abandoning its file keeps the books, whatever the file has become since the intent was read |
| `StorageRuns.AbandonKeeps` | packages/storage/src/service.ts:1843-1880 | abandoning a pending file gives back exactly its reservation, once |
| `StorageService.Tables.PersistVariants` | packages/storage/src/service.ts:591-627 | the upsert loop leaves the specified variant rows |
| `StorageService.Tables.CreateUploadIntent` | packages/storage/src/service.ts:727-912 | the pending file, open intent, counter and usage record of a new intent, row by row, or an unchanged database and the error: size, quota, then id or token in use |
| `StorageService.Tables.UploadFile` | packages/storage/src/service.ts:918-1116 | the same for a direct upload, charged with its variants |
| `StorageService.Tables.CompleteUpload` | packages/storage/src/service.ts:1281-1380 | the completing transaction is the specified one; an error after its first update undoes it |
| `StorageService.Tables.CompleteUploadIntent` | packages/storage/src/service.ts:1118-1458 | only who has the token of an open, unexpired intent of a pending file completes it; anyone else gets the one error and changes nothing.  Claim, checks, transaction and recovery are a run of the protocol's steps that leaves no task; without an error the file is available with the reserved size, with one it is not |
| `Storage.ClaimsExactlyWhen` | packages/storage/src/service.ts:1129-1147 | a claim succeeds exactly with the token of an open, unexpired intent of a pending file, and only marks that intent |
| `Storage.CompletesExactlyWhen` | packages/storage/src/service.ts:1281-1345 | a completion fails exactly when the file is no longer pending or the tenant has no room for what exceeds the reservation |
| `Storage.CompletedRows` | packages/storage/src/service.ts:1281-1380 | it makes the file available with the bytes received, completes the intent, and charges and records the difference to the reservation |
| `StorageService.Tables.ReserveQuota` | packages/storage/src/service.ts:421-463 | a charge needs room under the limit; a release ends at zero at least; no other tenant and no limit changes |
| `Storage.RecoveredIntent` | packages/storage/src/service.ts:1382-1455 | after one of the six permanent errors the intent is expired, after any other it opens again until it expires |
| `Storage.RecoveredFile` | packages/storage/src/service.ts:1382-1455 | only a permanent error abandons the pending file, and records its reservation as given back |
| `Storage.ExpiredRows` | packages/storage/src/service.ts:1754-1801 | only an open intent is expired, and only a pending file of the cleaned provider abandoned |
| `Storage.PurgedRows` | packages/storage/src/service.ts:1907-1922 | only a deleted file is purged, with its variants and intent; its usage records stay, unlinked |
| `StorageRuns.CleanupsRead` | packages/storage/src/service.ts:1724-1901 | the expired-intent clean-up reads open intents only, the orphan clean-up no file with an open or processing intent, and the last deleted files only |
| `StorageRuns.ReadsRemember` | packages/storage/src/service.ts:1639-1901 | what a deletion or clean-up takes from the rows it reads; reading writes nothing |
| `Storage.ReleasedRows` | packages/storage/src/service.ts:1843-1880 | an orphaned file is released only while it is pending with the cleaned provider |
| `Storage.QuotaRows` | packages/tenant/src/index.ts:2420-2434 | a quota row starts empty and stays; setting a limit leaves what is used |
| `StorageService.Tables.DeleteFile` | packages/storage/src/service.ts:1663-1714 | only an available file is deleted; that records the total it has read as given back, and the counter falls by it, to zero at least |
| `StorageService.Tables.CleanupExpiredUploadIntents` | packages/storage/src/service.ts:1724-1806 | the loop over the expired intents is a run of the protocol's steps that leaves no task, and counts the cleaned rows |
| `StorageService.Tables.CleanupOrphanedFiles` | packages/storage/src/service.ts:1808-1885 | the same for the orphaned files |
| `StorageService.Tables.CleanupDeletedFiles` | packages/storage/src/service.ts:1887-1927 | the same for the deleted files |
| `StorageService.CleanupTurn` | packages/storage/src/service.ts:1745-1803 | each turn of such a loop is one step of the protocol, so the run invariant covers it |
| `Savepoints.TransactionIsItsSurvivors` | packages/db/src/sqlite.ts:486-515 | the pure semantics: a transaction leaves what its surviving statements, replayed flat, leave; a failing subtree contributes nothing |
| `Savepoints.BodyIsItsSurvivors` | packages/db/src/sqlite.ts:416-451 | the same for a callback's statements and its nested transactions up to an uncaught error |
| `Savepoints.ErrorsAreErrors` | packages/db/src/sqlite.ts:416-515 | a throw anywhere in a callback, an uncaught insert of an existing key and an uncaught nested throw end it with an error; after a caught one the rest runs on the tables from before it |
| `Savepoints.Runtime.RunTransaction` | packages/db/src/sqlite.ts:486-515 | the BEGIN/COMMIT/ROLLBACK machine ends in the state of the pure semantics, with an empty stack; a callback that throws, itself or through an uncaught nested one, or inserts an existing key uncaught, leaves the tables as they were and the error |
| `Savepoints.Runtime.RunSavepoint` | packages/db/src/sqlite.ts:416-451 | a nested transaction under a reused savepoint name ends as the pure semantics says and leaves the frames below alone; one that throws leaves the tables as they were |
| `Savepoints.Runtime.RunNested` | packages/db/src/sqlite.ts:416-451 | nested transactions started together run in order, each as a transaction of its own |
| `Savepoints.FindsOwnFrame` | packages/db/src/sqlite.ts:416-446 | a savepoint name resolves to the frame its own transaction pushed, whatever names are below |
| `Savepoints.ParentStatementDuringChild` | packages/db/src/sqlite.ts:416-451 | a parent statement run in the middle of a nested transaction is among the surviving statements exactly when that transaction does not throw later |
| `Placeholders.Convert` | packages/db/src/sqlite.ts:207-335 | the loop's output is the query with `$` replaced by `?` exactly at the placeholders of the lexer |
| `Placeholders.ConvertedLexesAlike` | packages/db/src/sqlite.ts:207-335 | at every position input and output are in the same lexical state |
| `Placeholders.ConvertIsIdempotent` | packages/db/src/sqlite.ts:207-335 | converting twice is converting once |
| `Placeholders.PlaceholderIsRewritten` | packages/db/src/sqlite.ts:318-330 | a placeholder outside quotes and comments is rewritten with its number kept, and the rest converts by itself |
| `Placeholders.QuotedIsCopied` | packages/db/src/sqlite.ts:260-316 | text in quotes or brackets, doubled closing characters included, is copied and the rest converts by itself |
| `Placeholders.FourQuotesAreCopied` | packages/db/src/sqlite.ts:295-313 | text between single quotes, double quotes, back-ticks or brackets is copied with any `$n` in it |
| `Placeholders.LineCommentIsCopied` | packages/db/src/sqlite.ts:224-291 | a line comment is copied up to its line end and the rest converts by itself |
| `Placeholders.BlockCommentIsCopied` | packages/db/src/sqlite.ts:235-300 | a block comment with any comments nested in it is copied and ends at its own end |
| `Placeholders.LexResumes` | packages/db/src/sqlite.ts:207-335 | from a point in plain SQL the lexer works on the rest as on a query of its own |
| `Jobs.StepKeeps` | packages/jobs/src/index.ts:251-526 | every statement keeps attempts within the budget, queued below it, and running exactly when locked |
| `Jobs.EveryRunKeeps` | packages/jobs/src/index.ts:251-526 | so does every run, workers that lost their lock included |
| `Jobs.AttemptsCountClaims` | packages/jobs/src/index.ts:387-452 | a job's attempts are the claims of it |
| `Jobs.ClaimedAtMostMaxAttempts` | packages/jobs/src/index.ts:387-452 | over any run a job is claimed at most as often as it has attempts left |
| `Jobs.StepSpends` | packages/jobs/src/index.ts:387-452 | each claim takes one from the sum of the attempts left, and only new jobs add to it |
| `Jobs.RunSpends` | packages/jobs/src/index.ts:387-452 | a run claims at most as often as the attempts there were and the attempts it brought |
| `Jobs.CompletedUnlessFailed` | packages/jobs/src/index.ts:473-526 | a step takes a completed job out of `completed` exactly when it is a late failure of it |
| `Jobs.LateFailReopensCompletedJob` | packages/jobs/src/index.ts:473-526 | a run in which a worker that lost its lock reopens a completed job |
| `Jobs.Service.ReclaimStaleJobs` | packages/jobs/src/index.ts:251-305 | the two updates requeue or fail exactly the stale jobs of the queue |
| `Jobs.Service.SelectNext` | packages/jobs/src/index.ts:411-422 | the job it returns is due, none due has a higher priority, at its priority none an earlier availability, and at that none an earlier creation; none if nothing is due |
| `Jobs.NextIsFirst` | packages/jobs/src/index.ts:411-422 | a job is next exactly when no due one comes before it by `priority DESC`, `available_at ASC` and `created_at ASC` |
| `Jobs.Service.ClaimNextJob` | packages/jobs/src/index.ts:387-452 | after reclaiming, the first due job by priority, availability and creation is locked by this worker with one attempt more, or nothing is |
| `Jobs.Service.RunWorkerOnce` | packages/jobs/src/index.ts:538-561 | a worker's turn is a run of the protocol's steps; the job it claimed ends unlocked, completed if its handler succeeded, else queued again for a minute later while attempts are left and failed otherwise |
| `Jobs.Service.MaterializeDueCronJobs` | packages/jobs/src/index.ts:307-385 | every active schedule whose time has come gives one queued job of its queue and priority and moves to its interval after `now`; a second call at the same time adds none |
| `JobLeases.EventKeeps` | packages/jobs/src/index.ts:528-561 | with workers that finish within the lease, every held job's row names its holder and claim time |
| `JobLeases.OneHolderPerJob` | packages/jobs/src/index.ts:387-452 | no two workers ever hold one job, and whoever finishes a job holds its lock |
| `JobLeases.CompletedIsTerminal` | packages/jobs/src/index.ts:454-471 | a completed job's row never changes again |
| `JobLeases.ClaimsAreApart` | packages/jobs/src/index.ts:251-305 | any two claims of a job with no failure of it in between are at least the lease apart |
| `JobLeases.HeldIsNotPicked` | packages/jobs/src/index.ts:251-305 | a held job is neither reclaimed nor picked |
| `RefreshRotation.StepKeeps` | packages/auth/src/index.ts:2790-2917 | every step keeps each session's tokens one chain, every cached result and every answer true |
| `RefreshRotation.EveryRunKeeps` | packages/auth/src/index.ts:2790-2917 | so does every run |
| `RefreshRotation.ExchangedAtMostOnce` | packages/auth/src/index.ts:2790-2917 | over any run a refresh token is exchanged at most once |
| `RefreshRotation.SameTokenSameAnswer` | packages/auth/src/index.ts:612-675 | all successful calls with one token get its single rotation's result, repeats only for the same coordinator and within the cache lifetime |
| `RefreshRotation.EqualCallersRace` | packages/auth/src/index.ts:2813-2893 | of two callers in flight with the same token and coordinator both may commit; the second changes no session and gets the first one's tokens exactly within the cache lifetime |
| `RefreshRotation.SecondCallerGetsTheSame` | packages/auth/src/index.ts:2831-2893 | any later commit of an exchanged token, by whatever caller, gets the one rotation's tokens exactly when it names the same coordinator within the lifetime |
| `RefreshRotation.ReplayedExactlyWhen` | packages/auth/src/index.ts:612-640 | at any later time a coordinator finds a saved result exactly while it is live and its own, whatever was saved or dropped in between |
| `RefreshRotation.SavedIsFound` | packages/auth/src/index.ts:642-675 | from its saving on a result is found under its own token and coordinator until it expires, and no other lookup changes |
| `RefreshRotation.OnlyTheLastIsAccepted` | packages/auth/src/index.ts:2813-2851 | of all tokens of a session only the last of its chain is accepted, and by that session only |
| `RefreshRotation.NothingAfterRevocation` | packages/auth/src/index.ts:2770-2788 | after a revocation the chain does not grow and no token opens or refreshes the session |
| `RefreshRotation.AcceptedIsUnused` | packages/auth/src/index.ts:2813-2851 | a token that is accepted has not been exchanged before |
| `RefreshRotation.AuthService.StartRotation` | packages/auth/src/index.ts:2801-2829 | a saved result of this coordinator, or else a session that accepts the token, if there is one |
| `RefreshRotation.AuthService.RotateRefreshToken` | packages/auth/src/index.ts:2790-2917 | a call nothing interrupts: the saved result; or the exchange, which stores the returned tokens with their lifetimes in the one session that accepted the old token, and the result for five seconds; or the error exactly when no session accepts the token |
| `RefreshRotation.ExchangedTokens` | packages/auth/src/index.ts:2831-2851 | the new tokens open and refresh the session exactly for their lifetimes, the old ones no more, and no other session changes |
| `RefreshRotation.CreatedTokens` | packages/auth/src/index.ts:854-898 | a new session is opened by its token and refreshed by its refresh token alone, each for its lifetime |
| `RefreshRotation.RevokedTokens` | packages/auth/src/index.ts:2770-2788 | a revoked session, or all of a user's, opens and refreshes for no token, and others are left as they were |
| `RefreshRotation.SignOutRevokes` | packages/auth/src/index.ts:2755-2788 | signing out, of one session or all of a user's, is such a revocation |
| `RefreshRotation.CallsInFlight` | packages/auth/src/index.ts:2790-2893 | a call is in flight from being accepted without a saved result until its one commit, which answers if it exchanges |
| `RefreshRotation.AuthService.CommitRotation` | packages/auth/src/index.ts:2831-2893 | the guarded exchange with its saved result, or the result another caller saved |
| `RefundRuns.StepKeeps` | packages/billing/src/service.ts:3087-3311 | every step of requests, events and refunds made at the provider keeps what an invoice owes, stored or not, within what was taken for it, unless a request neither sees every refund nor is bounded by the provider |
| `RefundRuns.StepKeepsShape` | packages/billing/src/service.ts:3087-3311 | every step, bounded or not, keeps each row its refund's, and every step but a request keeps each covered invoice covered |
| `RefundRuns.EveryRunKeeps` | packages/billing/src/service.ts:3087-3311 | so does every run of such steps |
| `RefundRuns.NeverOverRefunded` | packages/billing/src/service.ts:3194-3219 | over such runs the active refunds linked to an invoice, external ones included, never exceed what was taken for it |
| `RefundRuns.RepeatedKeyAddsNothing` | packages/billing/src/service.ts:3165-3185 | a repeated idempotency key grants nothing and changes no amount or status |
| `RefundRuns.OneRefundPerKey` | packages/billing/src/service.ts:3165-3185 | over any run, requests given up and retried included, a key has one refund per invoice, if no request repeats the key of an outside refund it cannot see and no outside refund brings a used key |
| `RefundRuns.NewKeyIsApartExactlyWhen` | packages/billing/src/service.ts:3165-3185 | a newly granted refund shares its key with another exactly when an outside refund with that key is unseen |
| `RefundRuns.RetriedKeyGrantsNothing` | packages/billing/src/service.ts:3230-3249 | a request repeated under its key after it was granted and given up grants nothing new |
| `RefundRuns.RetryRefundsOnce` | packages/billing/src/service.ts:3230-3300 | a run with a grant, an abort and a retry under the same key that ends with one refund |
| `RefundRuns.WholeBalanceNeedsAllSeen` | packages/billing/src/service.ts:3194-3249 | a request for the whole balance keeps the invoice covered exactly when every refund it cannot see is failed or canceled |
| `RefundRuns.GrantFitsExactlyWhen` | packages/billing/src/service.ts:3194-3249 | a request for any amount keeps the invoice covered exactly when it also fits under the refunds that no request can see |
| `RefundRuns.ChecksSuffice` | packages/billing/src/service.ts:3194-3219 | for a request that sees every refund of its invoice the service's own checks imply the provider's bound |
| `RefundRuns.SeenUnlessHidden` | packages/billing/src/service.ts:1403-1513 | only a refund made at the provider and a request given up before an event with a reference hide a refund |
| `RefundRuns.GivenUpRequestOverRefunds` | packages/billing/src/service.ts:3230-3300 | a run that leaves 200 linked of 100 paid: a granted request is given up, the whole balance is asked for again, and the first refund's event arrives |
| `Refunds.ReceiveKeeps` | packages/billing/src/service.ts:1403-1513 | a provider event, of a requested or an outside refund and whenever it arrives, keeps the balance and the links right |
| `Refunds.LinkKeeps` | packages/billing/src/service.ts:3122-3163 | linking refunds stored without an invoice, external ones included, counts none twice and none of another invoice |
| `Refunds.ExternalKeeps` | packages/billing/src/service.ts:1403-1513 | a refund made at the provider, for an invoice that is stored or not, keeps all books if it fits what was taken |
| `Refunds.LateInvoiceFindsItsRefund` | packages/billing/src/service.ts:3145-3163 | a refund stored by its payment before its invoice is linked and counted once the invoice is there |
| `Refunds.EventCountsExactlyWhen` | packages/billing/src/service.ts:1403-1513 | after an event its refund counts in its invoice's balance exactly when the event finds the invoice or names the payment, or an earlier one did |
| `Refunds.ReferenceFreeEventAddsNothing` | packages/billing/src/adapters/stripe-compatible.ts:541-553 | an event of a new refund that names neither leaves every balance as it was |
| `Refunds.EventMayComeFirst` | packages/billing/src/service.ts:3251-3300 | whether the event or the request is stored first, the same row results but for the last status |
| `Refunds.StoreKeeps` | packages/billing/src/service.ts:3251-3300 | storing a granted request, with its links, keeps the balance and the links right |
| `RefundService.Tables.SumRefunds` | packages/billing/src/service.ts:3195-3203 | the query's total is the sum of the active amounts linked to the invoice |
| `RefundService.Tables.CheckRequest` | packages/billing/src/service.ts:3104-3219 | the amount allowed and the invoice's pending and succeeded refunds, linked or to be linked, stay within what was paid; each error has its own condition on the rows, and a known key is found among those refunds; on an error the linking is rolled back |
| `RefundService.Tables.RequestRefund` | packages/billing/src/service.ts:3087-3311 | a whole request is the protocol's `Ask` and `Store` when the provider's answer has the amount asked for, and otherwise leaves what the check left; what is asked for fits under the pending and succeeded refunds, and the refund stored has the answer's amount and status and the key |
| `RefundService.Tables.ReceiveEvent` | packages/billing/src/service.ts:1403-1513 | stores the event's amount and status under the one tenant all sources agree on, keeping references the row has, or rejects it exactly when there is no such tenant |
| `RefundService.LinkingFirstCountsTheSame` | packages/billing/src/service.ts:3145-3203 | summing after linking counts exactly the refunds that were to be linked or are |
| `RefundService.OnlyFailedAndCanceledTakeNothing` | packages/billing/src/service.ts:3195-3203 | without a failed or canceled refund the balance would be the same, without a pending or succeeded one larger by its amount |
| `RefundService.VerdictMeans` | packages/billing/src/service.ts:3104-3219 | what each answer of the checks says of the rows, by the refunds' statuses |
| `RefundService.LinkedRows` | packages/billing/src/service.ts:3145-3163 | linking gives the invoice to exactly its unlinked refunds and changes nothing else of any |
| `RefundService.StoredRows` | packages/billing/src/service.ts:3251-3300 | storing a request keeps what an event has stored of its refund meanwhile, and fills in the rest |
| `RefundService.TurnedDown` | packages/billing/src/service.ts:3104-3219 | a request under a used key only links; one that is turned down does nothing |
| `Entitlements.GrantedKeys` | packages/billing/src/service.ts:1591-1631 | the granted keys are the union over the live subscriptions, and each names its last carrier in the list |
| `Entitlements.GrantsAreTheUnion` | packages/billing/src/service.ts:1566-1631 | with any answer of the query, whichever way ties fall and with the clock read twice, a key is granted exactly when a live subscription carries it |
| `Entitlements.LiveStatuses` | packages/billing/src/service.ts:1566-1580 | active and trialing subscriptions count; any other status only while a grace period lasts |
| `Entitlements.ReportedExactlyWhen` | packages/billing/src/service.ts:2567-2590 | a key is reported exactly while its row is enabled and its subscription, if it names one, is active, trialing or in grace |
| `Entitlements.RecomputedRow` | packages/billing/src/service.ts:1633-1671 | after a recompute a row is enabled exactly if a live subscription carries its key, names one, and has kept what was used; other tenants' rows are as they were |
| `Entitlements.TiesFallEitherWay` | packages/billing/src/service.ts:1566-1577 | subscriptions updated at the same time come in either order, others only with the later updated first |
| `Entitlements.LimitIsTheLastMaximum` | packages/billing/src/service.ts:1609-1630 | a granted limit is the largest of the limits that no later plain feature erases, with zero |
| `Entitlements.LimitIsMaximumUnlessOverwritten` | packages/billing/src/service.ts:1609-1631 | the limit is the maximum over the live subscriptions exactly when one with that maximum has no plain feature of the key after it |
| `Entitlements.DisjointKeysIgnoreTheOrder` | packages/billing/src/service.ts:1609-1631 | with disjoint feature and limit keys the subscriptions' order changes no grant's limit |
| `Entitlements.FeatureErasesLimit` | packages/billing/src/service.ts:1609-1630 | two subscriptions for which the limit is lost because the plain feature is the less recently updated one |
| `Entitlements.LimitStaysOnTop` | packages/billing/src/service.ts:1609-1630 | the same two, updated in the other order, keep it |
| `EntitlementRuns.StepKeeps` | packages/billing/src/service.ts:956-1109 | after every event and usage update each tenant's enabled rows are those its last recompute granted, with the right subscription |
| `EntitlementRuns.EveryRunKeeps` | packages/billing/src/service.ts:956-1109 | so does every run |
| `EntitlementRuns.EveryRunIsSound` | packages/billing/src/service.ts:2552-2591 | whatever is reported at a time is what a recompute at that time would grant |
| `EntitlementRuns.CacheMissesExactlyWhen` | packages/billing/src/service.ts:2566-2590 | a key a recompute would grant is reported missing exactly when the subscription its row names has lapsed |
| `EntitlementRuns.GrantedIsEnabled` | packages/billing/src/service.ts:2566-2590 | that subscription is the least recently updated carrier at the last recompute |
| `EntitlementRuns.ExactUntilTheNextDeadline` | packages/billing/src/service.ts:2566-2590 | until a grace deadline of the tenant passes, the table agrees with a recompute exactly |
| `EntitlementRuns.LapsedGraceHidesTheKey` | packages/billing/src/service.ts:2566-2590 | a run after which a key that is still carried is reported missing |
| `EntitlementRuns.UsageIsKept` | packages/billing/src/service.ts:3068-3082 | over any run a row's used value is what it was plus what was recorded; no recompute resets it |
| `EntitlementRuns.PastDueKeepsItsDeadline` | packages/billing/src/service.ts:1020-1037 | while a subscription stays past due no event moves the deadline it has |
| `EntitlementService.Tables.CollectGrants` | packages/billing/src/service.ts:1591-1631 | the loop over the subscriptions fills the map with the specified grants |
| `EntitlementService.Tables.AddPlan` | packages/billing/src/service.ts:1609-1630 | one plan's features and then its limits, in any order of the limits |
| `EntitlementService.Tables.RecomputeEntitlements` | packages/billing/src/service.ts:1633-1671 | disabling all rows and upserting the grants one by one leaves the specified table |
| `EntitlementService.Tables.UpsertSubscriptionFromEvent` | packages/billing/src/service.ts:956-1109 | an event is the protocol's step and stores its subscription row; a past-due one keeps its deadline, or gets the event's, or the default days from now; or an error that changes nothing exactly when the tenants differ |
| `Webhooks.StepKeeps` | packages/billing/src/service.ts:2472-2547 | every step keeps the billing state the fold of the log, the log the processed events, and one handler per event |
| `Webhooks.StateIsTheFoldOfProcessed` | packages/billing/src/service.ts:2472-2547 | after every run the billing state is the fold, in commit order, of the effects of exactly the processed events, each once |
| `Webhooks.LogGrows` | packages/billing/src/service.ts:2516-2529 | what is processed stays processed |
| `Webhooks.RetryIsTakenUpExactlyWhen` | packages/billing/src/service.ts:2472-2514 | a delivery is taken up exactly when no attempt at its event has succeeded, is under way or was lost |
| `Webhooks.LostEventStaysUnprocessed` | packages/billing/src/service.ts:2472-2514 | an event whose handler was lost while processing stays unprocessed over every run |
| `Webhooks.Handler.HandleWebhook` | packages/billing/src/service.ts:2451-2550 | an undisturbed handler is a run of the protocol's steps and answers duplicate, exactly for an event that is processing or processed, done with its effect, or the error without it |
| `Webhooks.TurnIsARun` | packages/billing/src/service.ts:2512-2549 | a handler's steps leave either the effect and `processed`, or no effect and `failed`, and no task |
| `Webhooks.LostOrBroken` | packages/billing/src/service.ts:2497-2550 | a handler that is lost, or whose transaction fails for an outside reason, leaves rows, billing and log alone |
| `Webhooks.TriedOnce` | packages/billing/src/service.ts:2512-2549 | a transaction is tried once, and a failure marked only after it |
| `Webhooks.DeliveriesKeepEntitlementsSound` | packages/billing/src/service.ts:1700-1707 | however subscription webhooks are delivered, reported entitlements are what a recompute would grant |
| `Emails.StepKeeps` | packages/emails/src/service.ts:370-943 | every step of dispatchers and senders keeps keys unique, attempts within budget and attempt numbers unshared |
| `Emails.EveryRunKeeps` | packages/emails/src/service.ts:370-943 | so does every run |
| `Emails.OneDeliveryPerEvent` | packages/emails/src/service.ts:798-943 | an outbox event gets at most one delivery and one send job, and one delivery once it is dispatched |
| `Emails.CallsAreBounded` | packages/emails/src/service.ts:505-665 | the provider is called at most `maxAttempts` times for a delivery, overrunning senders included |
| `Emails.CallsAreApart` | packages/emails/src/service.ts:505-624 | no two calls of the provider are made in the same attempt |
| `Emails.SuppressedIsNeverSent` | packages/emails/src/service.ts:398-404 | a suppressed delivery never changes and is never handed to the provider |
| `Emails.HeldKeeps` | packages/emails/src/service.ts:505-665 | while attempts end within the five-minute claim, a sender's claim is the delivery's last |
| `Emails.OneSenderAtATime` | packages/emails/src/service.ts:505-528 | then no two senders work on one delivery |
| `Emails.SentIsTerminal` | packages/emails/src/service.ts:505-660 | and a sent delivery never changes and is never sent again |
| `Emails.SentUnlessLateFailure` | packages/emails/src/service.ts:638-660 | otherwise a step takes a delivery out of `sent` exactly when it is a late failure of it |
| `Emails.LateFailureReopensSent` | packages/emails/src/service.ts:638-660 | a run in which an accepted delivery can be sent again |
| `EmailService.Mailer.DispatchEvent` | packages/emails/src/service.ts:820-940 | one event's turn: queued once under its key and marked, dropped if invalid, or put back with its delay and dropped at the third failure |
| `EmailService.Mailer.DispatchOutbox` | packages/emails/src/service.ts:798-943 | the loop leaves the turns' combined effect and counts the dispatched events |
| `EmailService.Mailer.ProcessEmailDelivery` | packages/emails/src/service.ts:505-665 | a delivery that is queued, failed or five minutes stale, with attempts left, is attempted and ends as the provider answers; every other branch leaves the specified row and outcome |
| `EmailService.TurnIsARun` | packages/emails/src/service.ts:820-940 | a dispatcher's turn is a run of the protocol's steps |
| `EmailService.SenderIsARun` | packages/emails/src/service.ts:505-660 | a sender nothing interrupts claims, calls the provider once and writes its answer, as steps of the protocol |
| `EmailService.Mailer.QueueEmail` | packages/emails/src/service.ts:387-495 | a key the tenant has used adds nothing; otherwise one delivery, and one send job unless suppressed |
| `Emails.DelaysAre` | packages/emails/src/service.ts:912-912 | the retry delay starts at half a minute, doubles, and stays at an hour |
| `Emails.NewEventWaits` | packages/auth/src/index.ts:520-545 | a new outbox event waits from now on, with no attempt made |
| `Emails.DispatchersNeed` | packages/emails/src/service.ts:798-900 | only a waiting event whose time has come is selected; a valid one is queued, an invalid one dropped |
| `Emails.MarksNeed` | packages/emails/src/service.ts:620-660 | only what the provider accepted is marked sent, and only a queued event dispatched |
| `Emails.TimeOutFails` | packages/emails/src/service.ts:556-585 | only a last attempt that has been sending for five minutes is failed by others |
| `Uptime.StepKeeps` | packages/observability/src/service.ts:497-609 | every step keeps the last claim's lease the next check and all earlier leases run out |
| `Uptime.EveryRunKeeps` | packages/observability/src/service.ts:497-609 | so does every run |
| `Uptime.LeaseOutlasts` | packages/observability/src/service.ts:510-517 | a lease lasts the interval, or five to six seconds beyond the timeout if that is longer |
| `Uptime.ClaimsAreApart` | packages/observability/src/service.ts:497-524 | when a monitor is claimed, every check of it still in flight is at least five seconds past its timeout |
| `Uptime.RecordsExactlyTheLastClaim` | packages/observability/src/service.ts:554-587 | the compare-and-set lets exactly the check of the last claim record its result |
| `Uptime.OneResultPerClaim` | packages/observability/src/service.ts:554-587 | no claim has two results |
| `Uptime.DueShrinks` | packages/observability/src/service.ts:611-622 | the monitors due by a past cutoff only get fewer, and a claim takes its batch away |
| `Uptime.WhatCanHappen` | packages/observability/src/service.ts:502-509 | any active monitors whose next check has come, five at most, can be claimed |
| `Uptime.NextChecks` | packages/observability/src/service.ts:510-587 | a claim moves the next check by the lease, a recorded result by the interval, and nothing else moves it |
| `Uptime.CheckEnds` | packages/observability/src/service.ts:554-587 | a check gives its one result exactly when its lease is still the next check |
| `Uptime.ClaimStarts` | packages/observability/src/service.ts:510-524 | a claim starts one check of each of its monitors, with the lease and timeout it returned |
| `Uptime.ClaimLeavesOthers` | packages/observability/src/service.ts:510-524 | it leaves results, and the checks and numbers of other monitors, alone |
| `Uptime.UpsertSets` | packages/observability/src/service.ts:463-493 | setting a monitor up or changing it leaves its next check, or makes a new one due |
| `UptimeService.Worker.SelectDue` | packages/observability/src/service.ts:502-509 | the selected batch is at most five active monitors whose next check has come; any left out is due no earlier than all five |
| `UptimeService.Worker.RunDueUptimeChecks` | packages/observability/src/service.ts:497-609 | one batch is claimed, checked once each, and no longer due |
| `UptimeService.Worker.RunAllDueUptimeChecks` | packages/observability/src/service.ts:611-622 | a sweep ends, having checked every active monitor whose next check had come exactly once, moved its next check to the interval after, and touched no other; returns their number |
| `UptimeService.Worker.UpsertUptimeMonitor` | packages/observability/src/service.ts:444-495 | inserts or updates a monitor without moving its next check; rejects non-positive intervals and timeouts |
| `RateLimit.CountsAreHits` | packages/security/src/service.ts:200-230 | a bucket holds the number of its window's calls exactly while none of them has been swept away |
| `RateLimit.CountIsTheNumberInTheWindow` | packages/security/src/service.ts:200-230 | a call is told its number in its window exactly under that condition |
| `RateLimit.LateHitStartsOver` | packages/security/src/service.ts:200-230 | a call counted after its window was swept is told it is the first |
| `RateLimit.NumberedUnlessRestarted` | packages/security/src/service.ts:200-230 | all calls of a window are told their numbers exactly when none of them counts itself after an earlier one was swept away |
| `RateLimit.UndisturbedRestartsNothing` | packages/security/src/service.ts:200-230 | calls that are not interleaved, on a clock that does not go back, never do |
| `RateLimit.AllowedInWindow` | packages/security/src/service.ts:230-232 | in every window of which no call counts itself after an earlier one was swept away, exactly the first `limit` calls are allowed |
| `RateLimit.AllowedUpToDeletions` | packages/security/src/service.ts:200-232 | over any calls and sweeps each deletion of a window's bucket lets at most `limit` calls more through |
| `RateLimit.DeletionsAreSweeps` | packages/security/src/service.ts:182-206 | a window's bucket is deleted exactly by a sweep past its end |
| `RateLimit.LoneCallIsAllowed` | packages/security/src/service.ts:207-252 | a call alone in its window is allowed |
| `RateLimit.AtMostTwiceTheLimit` | packages/security/src/service.ts:194-198 | with two such windows no stretch as long as a window has more than twice the limit allowed |
| `RateLimit.UndisturbedAtMostTwice` | packages/security/src/service.ts:194-230 | so with any such calls no stretch as long as a window ever has more than twice the limit allowed |
| `RateLimit.LateCallExceedsTheLimit` | packages/security/src/service.ts:200-232 | in a window that has had its limit, a call that counts itself after a sweep past the end is allowed all the same |
| `RateLimit.RaceExceedsTheLimit` | packages/security/src/service.ts:200-232 | a run of two calls that are both allowed in one window under a limit of one |
| `RateLimit.AuditedOncePerWindow` | packages/security/src/service.ts:233-240 | the calls of such a window are told growing counts, so one at most writes the audit event |
| `RateLimit.Limiter.ConsumeRateLimit` | packages/security/src/service.ts:182-252 | the expired buckets go and the aligned window's bucket counts one more, or starts at one; every field of the answer; waiting `retryAfterSeconds` always reaches the reset time |
| `WhereFragments.LexOfOffset` | packages/db/src/query-helpers.ts:183-185 | shifting a clause moves every placeholder's number up and changes no other token |
| `WhereFragments.OffsetTwice` | packages/db/src/query-helpers.ts:183-185 | shifts add up |
| `WhereFragments.CombineWhereFragments` | packages/db/src/query-helpers.ts:170-195 | the loop returns the joined, shifted clauses and the concatenated parameters |
| `WhereFragments.WhereIsTakenOff` | packages/db/src/query-helpers.ts:177-177 | a leading WHERE in whatever case goes, with the white space around the clause |
| `WhereFragments.OthersAreTrimmed` | packages/db/src/query-helpers.ts:177-177 | any other clause is only trimmed |
| `WhereFragments.CombiningNests` | packages/db/src/query-helpers.ts:170-195 | combining is associative: a combination can replace its parts anywhere in another |
| `WhereFragments.CombinedBindsEachApart` | packages/db/src/query-helpers.ts:170-195 | the combined statement binds each clause with its own fragment's parameters, and every placeholder is in range |
| `WhereFragments.CreateEqualityFilterFragment` | packages/db/src/query-helpers.ts:85-111 | the loop returns one numbered comparison for each used filter, with the values in the same order |
| `WhereFragments.EqualityIsCombined` | packages/db/src/query-helpers.ts:85-111 | for column names that filter is the combination of its single comparisons |
| `WhereFragments.SearchFragmentBinds` | packages/db/src/query-helpers.ts:113-130 | the search fragment binds, in one pair of parentheses, every column compared with the one query |
| `Conditions.CombinedMeansAll` | packages/db/src/query-helpers.ts:170-195 | under any valuation of comparisons the combined fragment holds exactly when every fragment, bound with its own parameters, does, if no clause has an OR outside parentheses and quotes; and it can be combined again |
| `Conditions.OrClauseSwallows` | packages/db/src/query-helpers.ts:191-194 | a clause `a OR b` joined with `c` means `a OR (b AND c)`, which is what was meant exactly unless `a` holds and `c` does not |
| `Conditions.OrClauseSwallowsBefore` | packages/db/src/query-helpers.ts:191-194 | in second place it means `(c AND a) OR b`, which is what was meant exactly unless `b` holds and `c` does not |
| `Conditions.OrClauseSwallowsBoth` | packages/db/src/query-helpers.ts:191-194 | between two others it takes one with each alternative, and exactly then misses one |
| `Conditions.OrFragmentBreaks` | packages/db/src/query-helpers.ts:170-195 | two fragments of which one does not hold though their combination does |
| `Conditions.GroupMeansInside` | packages/db/src/query-helpers.ts:124-129 | parentheses make any closed condition joinable and keep its meaning |
| `Conditions.QuotedIsOneWord` | packages/db/src/query-helpers.ts:169-196 | a quoted text, whatever blanks, parentheses or keywords it contains, is one word and joinable |
| `Conditions.SearchMeansAny` | packages/db/src/query-helpers.ts:113-130 | the search fragment holds exactly when some column is like the query, and can be combined with any others |
| `Conditions.EqualityMeansEach` | packages/db/src/query-helpers.ts:85-111 | the equality filter holds exactly when every used filter's column equals its own value, and can be combined with any others |
| `Redaction.RedactConnectionCredentials` | packages/observability/src/logger.ts:49-102 | the nested loops terminate and return the text with every scanned authority masked |
| `Redaction.CredentialsAreMasked` | packages/observability/src/logger.ts:18-102 | the user and password of a URL, its characters given one by one, are masked; scheme, host and the text before stay, and the text after is redacted by itself |
| `Redaction.ScanShifts` | packages/observability/src/logger.ts:53-99 | the scan never looks back: it finds in the rest of a text what it finds there by itself |
| `Redaction.MaskKeepsTheHost` | packages/observability/src/logger.ts:86-96 | masking replaces user and password and keeps the host |
| `Redaction.MaskOnlyCredentials` | packages/observability/src/logger.ts:86-96 | an authority that masking changes has a user and a password; any other is left alone |
| `Redaction.PiecesJoin` | packages/observability/src/logger.ts:49-102 | the scanned authorities and what is between them are the whole text, so nothing else changes |
| `Redaction.RescanFindsTheMaskedPieces` | packages/observability/src/logger.ts:49-102 | scanning the redacted text finds the same pieces with the authorities masked |
| `Redaction.RedactIsIdempotent` | packages/observability/src/logger.ts:49-102 | redacting twice is redacting once, on every text |
| `Redaction.NothingScannedIsUnmasked` | packages/observability/src/logger.ts:49-102 | no authority found in the redacted text has a user and password other than the masks |
| `Redaction.ScannedArePieces` | packages/observability/src/logger.ts:49-102 | the masked pieces are the authorities at the positions the scan finds |
| `Redaction.ScannedExactlyWhen` | packages/observability/src/logger.ts:53-99 | an authority is scanned exactly when an even number of authorities stand one directly before the other before it |
| `Redaction.FirstOfChainIsScanned` | packages/observability/src/logger.ts:53-99 | an authority with none directly before it is always scanned |
| `Redaction.SecondSchemeIsMissed` | packages/observability/src/logger.ts:53-99 | a text whose second URL keeps its credentials |
| `Totp.CreateTotpSecret` | packages/auth/src/totp.ts:5-19 | the loops give the base32 text of the bytes |
| `Totp.DecodeBase32` | packages/auth/src/totp.ts:21-45 | the loops give the bytes of the normalised text, or the error for a foreign character |
| `Totp.RoundTripExactlyWhen` | packages/auth/src/totp.ts:5-45 | decoding undoes encoding exactly for a multiple of five bytes (section 6 of RFC 4648) |
| `Totp.PaddingIsIgnored` | packages/auth/src/totp.ts:22-25 | padding at the end changes nothing |
| `Totp.CaseIsIgnored` | packages/auth/src/totp.ts:22-25 | a secret may be typed in lower case |
| `Totp.SpacesAreIgnored` | packages/auth/src/totp.ts:22-25 | and with white space in it |
| `Totp.Truncated` | packages/auth/src/totp.ts:63-68 | the indices stay in the 20-byte digest and the result is a 31-bit number (section 5.3 of RFC 4226) |
| `Totp.TruncatedBytes` | packages/auth/src/totp.ts:63-68 | its bytes are the four at the offset the last one gives, without the sign bit |
| `Totp.TruncationExample` | packages/auth/src/totp.ts:63-68 | the example of section 5.4 of RFC 4226 |
| `Totp.CodeHasExactlyTheDigits` | packages/auth/src/totp.ts:63-70 | a code has exactly the digits asked for, and they are the truncated number's last ones |
| `Totp.NoDigitsGivesOne` | packages/auth/src/totp.ts:70-70 | except that asking for none gives one |
| `Totp.CodeThrowsExactlyWhen` | packages/auth/src/totp.ts:47-61 | there is a code exactly for a base32 secret and an unsigned 64-bit counter |
| `Totp.VerifyTotpCode` | packages/auth/src/totp.ts:73-112 | the loop over the window returns the specified verdict |
| `Totp.VerifiesExactly` | packages/auth/src/totp.ts:73-112 | it accepts exactly the well-formed codes of the counters within the window, and throws for a bad secret or a window reaching below zero |
| `Totp.CodeIsAcceptedNearby` | packages/auth/src/totp.ts:47-112 | a code made at one time is accepted at every time at most the window's length away |
| `Tax.RoundIs` | packages/billing/src/tax.ts:83-86 | rounding is to the one integer within half, halves up |
| `Tax.ExtractingUndoesAdding` | packages/billing/src/tax.ts:82-86 | extracting inclusive tax from net plus exclusive tax gives back that tax, for every net amount and rate |
| `Tax.AddingUndoesExtractingExactlyWhen` | packages/billing/src/tax.ts:82-86 | the other way round the gross comes back exactly under a bound on the rounding of the extracted tax |
| `Tax.OneHasNoNet` | packages/billing/src/tax.ts:82-86 | a gross amount that does not come back |
| `Tax.InclusiveTaxIsInside` | packages/billing/src/tax.ts:83-85 | the tax inside a non-negative amount lies between zero and the amount |
| `Tax.TotalIsSubtotalPlusExclusiveTax` | packages/billing/src/tax.ts:107-132 | over any lines the total is the subtotal plus the tax of the exclusive lines |
| `Tax.FirstMatchIsFirst` | packages/billing/src/tax.ts:108-113 | the rule applied is the first in the list that matches the customer, if any does |
| `Tax.RuleApplies` | packages/billing/src/tax.ts:57-69 | exempt and reverse-charge customers have no rule; a rule applies by country, and by region if it names one |
| `Tax.LineIs` | packages/billing/src/tax.ts:71-103 | no rule or an unspecified line means no tax; tax is added to an exclusive line of an exclusive rule and inside any other |
| `Tax.EveryLineIsTaxed` | packages/billing/src/tax.ts:107-132 | every line is taxed by the one rule, and the subtotal is what the lines came to before |
| `Tax.LinesAgree` | packages/billing/src/tax.ts:71-103 | a line billed exclusively and its total read back inclusively agree on the tax |
| `Tax.RoundingDrift` | packages/billing/src/tax.ts:107-132 | rounding line by line strays from the exact tax by at most half a unit a line |

## Left out

- The object store, malware scanning and image processing: their outcomes are parameters of a completion; conservation of bytes does not depend on the stored objects.
- Deleting an organisation, which cascades over most tables.
- Eventual release of storage: a transient failure after an intent has expired leaves it processing (packages/storage/src/service.ts:1444-1455) and no clean-up selects it; conservation is proved, not release.
- Storage, jobs and refunds through a database client without transactions.
- The currency check of refunds and tax lines, and refunds of several providers at once.
- A subscription event's price, quantity and customer checks: more reasons for the same rolled-back error; its row id is the provider's id, which the unique key ties to it.
- Plans changing under a recompute, and JSON that is not a plan's configuration.
- The commit of a webhook transaction that is reported as an error: the code would apply the event again.
- Conditions.CombinedMeansAll: conditions are read word by word; quoted identifiers with blanks, comments, `BETWEEN … AND` and keywords without blanks around them are not read as SQL reads them.
- WhereFragments.EqualityIsCombined: configured column names without `$`, spaces at the start or a leading WHERE; the filter itself is specified for any.
- Redaction of bearer tokens, labelled secrets and structured values: pattern replacements by regular expressions.
- Rate limits that change between the calls of one key: its calls all use one limit and window.
- The operation queue of the SQLite runtime (packages/db/src/sqlite.ts:400-409), which runs waiting transactions and statements one after the other.
- Inserting a job, a session or a usage quantity, revoking a session: one statement each; the protocols' steps cover them.
- EmailService.Mailer.DispatchOutbox: the selecting query with its order and limit is a parameter; any selection of stored events is covered.
- EmailService.Mailer.ProcessEmailDelivery: one sender, undisturbed; the interleavings are in `Emails`.
- UptimeService.Worker.RunAllDueUptimeChecks: one worker without concurrent inserts; other workers are in `Uptime`.
- A retried outbox event's delay uses the attempts its dispatcher had selected; the model takes the row's, which differ only between racing dispatchers and only move the event's next time.
- Password policies, passkeys, OAuth, audit rows, templates, locale lookup, API keys, row mappers, React components and configuration: straight-line code.
