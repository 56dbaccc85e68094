# Wallet API: protocols, read models and arithmetic, proved

This project models the parts of the custodial Flow wallet API and its ArtDrop
plugin that have to stay right under concurrency, retries, reordering and
partial failure, and proves what they promise. `dafny verify dfyconfig.toml`
checks all of it.

Concurrent protocols are transition systems: a state, an action for every
statement another actor can come between, and theorems over every sequence of
actions. Where the source changes state in place a class does the same, and
each method is proved equal to the steps or the function it stands for. Every
database write may be refused, may commit, or may commit and still report an
error; the actor may crash after any step by simply taking no further one.

| modules | what they are |
|---|---|
| `PurchaseTypes`, `IdempotencyTable`, `Recovery` | the rows, the table shared by purchase intents and the generic idempotency store, the pure answers computed from it |
| `ChargeProtocol`, `ChargeInvariant`, `ChargeSteps`, `ChargeTheorems`, `ChargeService` | the durable purchase charge: any number of requests, the payment provider, crashes and lost acknowledgements |
| `ChargeAnswers`, `ChargeRecovery`, `ChargeEvidence` | what a charge says about its payment, what one call answers and leaves; what recovery answers, and the evidence it insists on; lost reservations, payments met again and the unique indexes |
| `EscrowOpening`, `OpeningOverPool` | operators claiming, submitting and releasing one escrow opening; the same over the worker pool's own jobs |
| `EscrowChain`, `EscrowProjection`, `ProjectionConvergence`, `EscrowReads` | the chain's own fold of the escrow events, the read model fed in any order, the reads served from it |
| `ChainListener`, `ListenerProjection` | the height cursor, and the listener composed with the read model |
| `JobPool` | one job, its timed lease, stale copies, workers |
| `OracleAggregate`, `OracleMean`, `OracleSpot`, `EvmDecode`, `OracleBatch`, `OraclePools` | median, outlier rejection and weighted mean; v2 and v3 spot prices; hex and ABI words; the batched read and the cached price; what a pool's spot means |
| `EscrowCache`, `SharedFlight`, `Flights` | the LRU and TTL cache; concurrent callers sharing one lookup, for the cache and for the price |
| `KeyScheduler`, `LocalIdempotency`, `IssueSync` | least-recently-used keys, the idempotency middleware, the issue synchronisation script |

## Assumptions

* Random execution tokens and purchase ids are fresh; digests used as
  identities (SHA-256 of key and terms) are injective; JSON encoding is exact.
* A statement or transaction of the database is one atomic step; row locks
  work as on PostgreSQL and MySQL.
* A FAILED job created nothing on chain (`artdrop/purchase/service.go:558-572`).
  `EscrowOpening` also takes it to stay FAILED; `OpeningOverPool` proves the same
  safety from the worker pool's own steps, under the conditions on which the
  pool keeps its jobs FAILED (`JobPool.TerminalIsLeftIff`).
* A legal chain history has one create-type event per escrow, at most one of
  Released and Voided, at most one Claimed; the certificate of a re-escrow was
  escrowed before and keeps its edition.
* Each backfill script reads the chain no earlier than the listener's first
  cursor. A theorem about the chain "now" speaks of a moment at which the
  history it names includes everything a script has read.
* Handlers of triggered events succeed; the convergence theorems say
  "once they have finished".
* Oracle prices are exact reals.

## Where the code and a natural reading of it part

For each there is a lemma that says exactly when the property holds, and one
that exhibits an input or a run in which it does not.

* A resolved edition can become NULL again: a re-escrow handler whose lookup
  came back empty writes that emptiness over it, whatever happened in between
  (`EditionLostExactlyByAnEmptyHandedWrite`, `ResolvedEditionCanBecomeNull`).
* A listing leaves escrows out, although its comment says incomplete rows are
  never dropped from a list: one by edition those whose edition is NULL, one by
  buyer or seller those whose row is a stub of a later event. However the table
  was fed, a served listing holds no wrong escrow, and is complete exactly if
  the table has, for every escrow asked for, a row with its edition or with its
  create columns (`ListingServesTheResolvedChain`, `ListingIsCompleteIff`,
  `ListingOverAllRowsIsCompleteIff`). For a listener that saw the whole history
  the table itself tells, by the certificates it resolves to the edition
  (`EditionListingIsCompleteIff`, `EditionListingCanOmit`); for one that started
  later all create columns are there exactly if the backfill brought those of
  the escrows before it (`EveryEscrowIsKnownIff`).
* A backfill does not heal everything. A live event that overtakes it leaves a
  stub that stays a stub for good (`StubIsForGood`, `StubIsNeverServed`,
  `StubHidesAnEscrow`); and a backfill that failed after its first row, or found
  a row of the listener's, is not retried on the next boot, although
  `artdrop/plugin.go:351` says so (`BackfillOnTwoBoots`).
* After a failed save the read model is ahead of the listener's cursor, for
  exactly the escrows with an event beyond the cursor in a triggered window
  (`RowMirrorsTheCursorIff`, `RowCanBeAheadOfTheCursor`).
* A restart with a higher starting height skips exactly the heights it jumps
  over and no unsaved window had reached (`HeightIsSkippedIffJumped`,
  `RestartSkipsHeights`); a starting height of 1 is taken for "not set"
  (`StartingHeightHonouredIff`, `StartingHeightOneIsIgnored`). A row fed by the
  listener alone is wrong for good exactly if an event of its escrow lies at a
  skipped height (`RowMirrorsTheChainIffNothingIsSkipped`).
* A job leaves COMPLETE or FAILED exactly when its creator calls Schedule late
  and the queue is full (`TerminalIsLeftIff`, `LateScheduleReopensACompleteJob`).
* The error limit can be exceeded exactly when the update of the report that
  reaches it is refused, under every configuration (`LimitCanBeExceededIff`,
  `EveryLimitCanBeExceeded`, `LostUpdateExceedsTheBudget`).
* A running worker loses its lease for exactly three reasons: its acceptance was
  not committed, which `datastore/lib/lib.go:26-28` does not look at, it has
  outlived the grace period, or a late Schedule found the queue full
  (`LeaseIsLostIff`). So two executions can overlap although both are within
  their grace period, for two of them (`SilentCommitFailureOverlaps`,
  `LateScheduleOverlaps`).
* A job's error log loses entries exactly when a queued copy that lacks them is
  accepted, which also skips the reschedule delay, or a late Schedule writes the
  creator's copy back (`ErrorLogShrinksIff`, `StaleCopyErasesTheErrors`).
* An expired generic key is deleted and reserved by one statement, which its
  comment calls one logical step. It is reserved at the first attempt exactly if
  the insert sees the deletion; under the one snapshot that PostgreSQL gives all
  parts of such a statement (section 7.8.4 of its version 16 documentation) it
  does not: the first request after the expiry finds the key neither free nor
  taken, and is answered with a conflict (`ExpiredKeyIsReservedIff`). The
  theorems hold either way.
* Hex text is refused exactly if some pair cannot be scanned; a digit followed
  by a stray character is read as a one-digit byte (`DecodesIffScannable`,
  `StrayDigitIsAccepted`).
* The idempotency recorder keeps the status the client saw exactly unless the
  handler opened with an informational header, and the body exactly unless it
  wrote bytes under a status that has none (`RecordMatchesTheWireIff`,
  `EarlyHintsAreRecorded`). The replay nevertheless repeats what the first client
  got, always (`ReplayRepeatsTheWire`).
* `sync_issues`, stopped by a failing command, keeps the set of done tasks
  exactly unless it stopped between removing a label and reopening the issue;
  that task counts as done for good (`InterruptedRunKeepsDoneIff`,
  `StrandedIssueStaysDone`).

The cache's comment calls Released the only terminal status; Voided escrows
(`artdrop/escrow_projection/handler.go:199-216`) are terminal too and are
refetched every TTL, which costs time and nothing else.

## Model

| member | source | states |
|---|---|---|
| PurchaseTypes.HashBindsTerms | artdrop/purchase/durable.go:79-87 | two requests have the same hash exactly when they differ at most in actor and intent id |
| IdempotencyTable.CasOnlyMovesOwnLiveRow | handlers/purchase_intent.go:113-126 | a compare-and-set changes at most the caller's own row, never a finished one, keeps its token and terms, and did nothing unless it reports success or a database error |
| IdempotencyTable.GenericStoreKeepsPurchases | handlers/idempotency.go:188-306 | no generic reserve, set, release or prune adds, changes or removes a purchase row, whatever key it is given |
| IdempotencyTable.Table.ReservePurchaseIntent | handlers/purchase_intent.go:86-111 | the insert leaves an existing row alone; a request wins exactly when the row read back carries its token |
| IdempotencyTable.Table.CasPurchaseIntent | handlers/purchase_intent.go:113-126 | the conditional update, its new rows and what the caller is told |
| IdempotencyTable.Table.PurgePurchaseResponseBodies | handlers/purchase_intent.go:128-132 | only the body of a purchase row whose retention has passed is dropped |
| IdempotencyTable.Table.TryReserveKey | handlers/idempotency.go:235-274 | reserved exactly when the key is free, or an expired cache row whose deletion the same statement sees; purchase rows stay |
| IdempotencyTable.GenericKeyLifecycle | handlers/idempotency.go:235-306 | a reserved key is nobody else's until its expiry, its response stays until an expiry counted anew, a release leaves no trace, pruning takes it only after the expiry |
| IdempotencyTable.ExpiredKeyIsReservedIff | handlers/idempotency.go:235-274 | after the expiry the first attempt reserves the key exactly if the statement sees its own deletion; otherwise only the second does |
| IdempotencyTable.Table.SetKeyResponse | handlers/idempotency.go:276-293 | stores the response unless the key is a purchase row |
| IdempotencyTable.Table.ReleaseKey | handlers/idempotency.go:295-298 | deletes the key unless it is a purchase row |
| IdempotencyTable.Table.Prune | handlers/idempotency.go:300-306 | bodies past retention, then expired cache rows; purchase rows stay |
| ChargeSteps.StepKeepsInv | artdrop/purchase/service.go:182-484 | every step of every request, and every other action on the table, keeps the protocol invariant |
| ChargeSteps.RunKeepsInv | artdrop/purchase/service.go:182-484 | so does every run |
| ChargeSteps.NoOwnObligationYet | artdrop/purchase/service.go:377-396 | while a row is executing no charge carries its identity, so a charge found for the same payment intent is never accepted as this purchase's own |
| ChargeTheorems.OneProviderCallPerIntent | artdrop/purchase/service.go:215-368 | in every reachable state the provider was called at most once per owner and intent |
| ChargeTheorems.CallLeavesItsMark | artdrop/purchase/service.go:352-358 | once called, the row is the caller's own, its effect flag is set and its state is executing, recorded or unknown |
| ChargeTheorems.NotChargedWasNeverCalled | artdrop/purchase/store_durable.go:35-55 | a row that says not_charged belongs to an intent the provider was never called for |
| ChargeTheorems.RunEvolves | handlers/purchase_intent.go:86-126 | over any continuation: no reservation is taken over or extended, no terms change, no terminal state is left, a stored body only disappears after its retention, no charge is lost or rewritten outside its escrow columns, no call forgotten |
| ChargeTheorems.IntentRecoveryIsSound | artdrop/purchase/recovery.go:106-185 | recovery by intent never answers EVIDENCE_CONFLICT, answers recorded exactly when the charge is committed, and not_charged only if the provider was never called |
| ChargeTheorems.PurchaseRecoveryIsSound | artdrop/purchase/recovery.go:144-171 | recovery by purchase id answers recorded, with that very charge and without conflict, with any activity between its two reads |
| ChargeTheorems.ReplayAnswersFromTheRecord | artdrop/purchase/durable.go:113-143 | a request that lost the reservation calls nobody and changes nothing; its answer in every case: the terms conflict if its terms differ, the stored body while its retention lasts and the expiry with the purchase id after, in progress while the lease lasts, else reconciliation |
| ChargeTheorems.RepeatGetsTheStoredBody | artdrop/purchase/durable.go:79-143 | an undisturbed repeat: the stored body until it expires and the expiry answer after, with other terms the conflict, in progress exactly while recovery says so, else reconciliation; never a second call |
| ChargeService.Service.CreatePurchaseCharge | artdrop/purchase/service.go:182-484 | the whole procedure, deferred failure write included, leaves the rows, charges, calls and answer of its statements run in the transition system |
| ChargeService.Service.Reserve | artdrop/purchase/service.go:215-222 | reservation: insert and read back |
| ChargeService.Service.AnswerLoser | artdrop/purchase/store_durable.go:14-28 | the loser's replay, dropping an expired body first |
| ChargeService.Service.RecheckObligation | artdrop/purchase/service.go:225-238 | the check for an obligation made before the reservation, and giving it up |
| ChargeService.Service.MarkEffect | artdrop/purchase/store_durable.go:29-31 | the effect flag and state executing before the call |
| ChargeService.Service.CallProvider | artdrop/purchase/service.go:352-386 | the provider call and the observation of its payment intent |
| ChargeService.Service.ChooseCharge | artdrop/purchase/service.go:386-450 | reuse of a charge for the same payment intent only with the same obligation, a new one otherwise |
| ChargeService.Service.RecordOrFail | artdrop/purchase/service.go:451-484 | completion, or the deferred failure |
| ChargeService.Service.DeferredUncertain | artdrop/purchase/store_durable.go:35-55 | after the effect flag a failure records unknown, twice if the first write is not acknowledged |
| ChargeService.Service.DeferredClean | artdrop/purchase/service.go:239-263 | before the effect flag a failure records not_charged with its body, and falls back to unknown |
| ChargeService.Service.CompleteCharge | artdrop/purchase/store_durable.go:56-76 | charge and intent row are written together or not at all |
| ChargeAnswers.ChargesArePaid | artdrop/purchase/service.go:352-398 | in every run: a charge is recorded only for a payment the provider answered as succeeded to the holder of the reservation; its row holds that payment, its status and the terms |
| ChargeAnswers.FreshCallAnswers | artdrop/purchase/service.go:182-484 | a call for a fresh intent, from any reachable state, whatever the database loses or refuses and the provider and escrow service answer: it charges exactly when the payment is its own, named and succeeded, a chip has its escrow accepted and the last write is not refused; the charge column by column, the row it leaves, the calls, and its answer in every case |
| ChargeEvidence.LostReservationIsNotPaidAgain | artdrop/purchase/service.go:223-238 | if the row of a recorded purchase vanished, a new call for its intent calls nobody and charges nothing, whatever its terms and whatever is lost; its answer in every case |
| ChargeEvidence.ReuseNeedsFullEvidence | artdrop/purchase/service.go:382-395 | in any state, a payment that already has a charge is answered with it exactly on complete matching evidence, else as a conflict; never a second charge |
| ChargeEvidence.ChargesStayApart | artdrop/purchase/purchase.go:40-64 | no run ever records a payment, a purchase id or an intent twice |
| ChargeRecovery.IntentRecoveryIsExact | artdrop/purchase/recovery.go:104-185 | in every reachable state, the whole answer: the committed charge if there is one; else in progress exactly while the lease of an unfinished row lasts, not charged exactly when the row says so, reconciliation otherwise; nothing exactly for an intent never reserved |
| ChargeRecovery.LeaseBoundsProgress | artdrop/purchase/recovery.go:110-117 | from the insert on, whatever happens to the request: in progress exactly until the lease given then is over or the outcome is written |
| ChargeRecovery.PurgeDropsExactlyTheUnreplayable | handlers/purchase_intent.go:128-132 | in every reachable state pruning drops a stored body exactly from the moment it can no longer be replayed |
| ChargeRecovery.TamperingIsDetected | artdrop/purchase/recovery.go:126-139 | for any charge in place of a committed one: evidence conflict exactly when one of its seven evidence columns differs |
| ChargeRecovery.ContradictingRowIsDetected | artdrop/purchase/recovery.go:126-139 | for any row in place of a charge's own: evidence conflict exactly when its terms, version or identity differ, it names another payment or purchase, or says not charged |
| ChargeRecovery.UndecodableBodyIsRefused | artdrop/purchase/durable.go:113-143 | a stored body not of the kind its row's state calls for is answered lookup unavailable |
| ChargeRecovery.LostIndexIsDetected | artdrop/purchase/recovery.go:155-168 | by purchase id, whatever the second read finds: a charge missing under its intent, or another there, is a conflict |
| EscrowOpening.StepKeepsInv | artdrop/purchase/service.go:489-596 | every step of every operator keeps the accounting of claims and live jobs |
| EscrowOpening.AtMostOneLiveSubmission | artdrop/purchase/service.go:489-556 | at any time at most one submitted escrow job is not FAILED |
| EscrowOpening.ResetOnlyClearsItsFailedJob | artdrop/purchase/store_gorm.go:49-61 | a reset after a stale read changes the row only if it still names the very job that FAILED |
| EscrowOpening.EmptyClaimBelongsToItsClaimant | artdrop/purchase/service.go:573-596 | a claim without a job is changed by nobody but its claimant |
| EscrowOpening.OpenableExactlyWhenUnclaimedOrFailed | artdrop/purchase/service.go:489-556 | an undisturbed operator opens exactly an unclaimed purchase or one whose job FAILED, recording a fresh job; otherwise the row stays |
| EscrowOpening.OpenCallIs | artdrop/purchase/service.go:489-596 | an undisturbed call in any reachable state, whatever is lost or refused: its answer, row and jobs written out; not openable exactly for a claim still without a job, one whose job may still seal, or any when job states cannot be read |
| EscrowOpening.RaceIsLostIff | artdrop/purchase/service.go:524-596 | in any reachable state a claim or release that comes second changes nothing and is told not openable, exactly when the purchase is no longer free or the claim no longer names the failed job |
| EscrowOpening.ReopenedIffItsJobFailed | artdrop/purchase/service.go:558-596 | once the job of an opening has ended, another key opens the purchase anew exactly if it FAILED |
| EscrowOpening.RepeatedOpeningAnswersTheSame | artdrop/purchase/service.go:503-505 | whatever others did since an opening, a call with its key answers with the same job, chip and nonce and submits nothing, as long as the job has not FAILED |
| EscrowOpening.OpeningStaysWhileItsJobMaySeal | artdrop/purchase/store_gorm.go:32-61 | while the job of an opening has not FAILED nobody changes the row |
| EscrowOpening.Desk.ClaimEscrowOpening | artdrop/purchase/store_gorm.go:32-37 | the conditional claim |
| EscrowOpening.Desk.SetEscrowJobID | artdrop/purchase/store_gorm.go:39-42 | the job id, only while opening |
| EscrowOpening.Desk.ResetEscrowOpening | artdrop/purchase/store_gorm.go:44-47 | unclaims only a claim without a job |
| EscrowOpening.Desk.ResetEscrowOpeningAfterFailedJob | artdrop/purchase/store_gorm.go:49-61 | releases only the claim that names the failed job |
| EscrowOpening.Desk.ReleaseFailedEscrowClaim | artdrop/purchase/service.go:558-596 | releases a claim only after its job was read as FAILED; without a job-state reader nothing is released |
| EscrowOpening.Desk.OpenEscrow | artdrop/purchase/service.go:489-556 | the whole call leaves row, jobs and answer of its statements run in the transition system |
| OpeningOverPool.AtMostOneJobMaySucceed | artdrop/purchase/service.go:489-596 | any number of operators over the pool's own jobs, workers and retries: in a run prompt in the pool's sense at most one submitted job's row is not FAILED |
| OpeningOverPool.FailedJobReturnsIff | jobs/workerpool.go:180-207 | a FAILED job comes back to life exactly by an overflowing Schedule of a creator that still holds its copy |
| EscrowChain.EventReflected | artdrop/escrow_projection/handler.go:103-231 | the fold of a legal history shows every event in it |
| EscrowChain.StatusHasEvent | artdrop/escrow_projection/handler.go:179-231 | and whatever the fold says of an escrow some event said |
| EscrowChain.PrefixesAgreeIff | artdrop/escrow_projection/handler.go:103-231 | two prefixes of a history say the same of an escrow exactly if no event between them is about it |
| EscrowChain.OneOfItsKind | artdrop/escrow_projection/handler.go:103-231 | in a legal history an escrow is created once, ends once and is claimed once |
| EscrowProjection.HandlersKeepToTheirColumns | artdrop/escrow_projection/store_gorm.go:19-115 | each handler writes only its event's row and only its own column group |
| EscrowProjection.HandlersWriteTheEvent | artdrop/escrow_projection/handler.go:103-231 | and all of it, from the event |
| EscrowProjection.OtherEscrowsCommute | artdrop/escrow_projection/store_gorm.go:19-115 | events of different escrows may be handled in either order |
| EscrowProjection.OtherGroupsCommute | artdrop/escrow_projection/store_gorm.go:19-115 | and so may events of one escrow with different column groups, but for the height |
| EscrowProjection.EditionForCertificate | artdrop/escrow_projection/store_gorm.go:127-140 | the edition of the lowest escrow id with that certificate and an edition; none exactly when no row has one |
| EscrowProjection.ProjectionStore.ApplyCreated | artdrop/escrow_projection/store_gorm.go:30-55 | the create-time columns; incomplete exactly when the edition is missing |
| EscrowProjection.ProjectionStore.ApplyReleased | artdrop/escrow_projection/store_gorm.go:57-75 | status and reason |
| EscrowProjection.ProjectionStore.ApplyVoided | artdrop/escrow_projection/store_gorm.go:85-100 | status, leaving the reason |
| EscrowProjection.ProjectionStore.ApplyClaimed | artdrop/escrow_projection/store_gorm.go:102-115 | the claimed columns |
| EscrowProjection.ProjectionStore.ApplyBackfillRow | artdrop/escrow_projection/store_gorm.go:120-125 | inserts, never overwrites |
| EscrowProjection.ProjectionStore.Handle | artdrop/escrow_projection/handler.go:88-231 | each event becomes its one upsert, a re-escrow with its own lookup |
| EscrowProjection.ProjectionStore.ResyncFromChain | artdrop/escrow_projection/store_gorm.go:149-178 | only existing rows, only the terminal columns, and "changed" exactly when something did |
| EscrowProjection.ProjectionStore.BackfillEscrowProjection | artdrop/escrow_read_swap.go:150-177 | an empty table receives the summaries of ids 1..n: all of them, or those before the first failing chunk or row; a table with rows is left alone |
| EscrowProjection.ProjectionStore.BackfillOnTwoBoots | artdrop/plugin.go:347-352 | a failed backfill is made good by the next boot exactly if it had written nothing; a table with rows is left as it is by both |
| ProjectionConvergence.RunKeepsInv | artdrop/escrow_projection/store_gorm.go:19-140 | every interleaving of live events, split re-escrow handlers and backfill inserts, each from a script at its own block, keeps the row invariant |
| ProjectionConvergence.CompleteRowsAreCreatedRight | artdrop/escrow_projection/store_gorm.go:30-55 | at every moment: incomplete exactly when the edition is NULL, an edition that is present is the chain's, a complete row has the chain's create-time columns |
| ProjectionConvergence.ServedRowsConverge | artdrop/escrow_projection/store_gorm.go:19-125 | once all events of an escrow after the cursor are handled, its row, if complete, equals the chain's fold |
| ProjectionConvergence.CreatedEscrowsConverge | artdrop/escrow_projection/handler.go:103-231 | an escrow made by EscrowCreated, its own events handled, ends with the chain's create, status, reason and claimed columns, for any order and repetition of deliveries |
| ProjectionConvergence.ResyncMakesRowsExact | artdrop/escrow_projection/store_gorm.go:142-178 | at every moment, reconciling a row with the chain gives it the chain's status, reason and claim, touches no create column, and makes it exact exactly if it is complete |
| ProjectionConvergence.RowIsExactIffNothingIsMissed | artdrop/escrow_projection/handler.go:103-231 | where only the listener writes, the row of an escrow created after the cursor equals the fold exactly when no event of that escrow was left out |
| ProjectionConvergence.StubIsForGood | artdrop/escrow_projection/store_gorm.go:57-125 | a stub of an escrow created before the cursor stays one, whatever is delivered or backfilled |
| ProjectionConvergence.EditionLostExactlyByAnEmptyHandedWrite | artdrop/escrow_projection/handler.go:145-177 | a step turns a resolved edition into NULL exactly when it is the write of a re-escrow handler whose lookup came back empty |
| ProjectionConvergence.FreshLookupKeepsTheEdition | artdrop/escrow_projection/store_gorm.go:127-140 | a lookup answered while the row is resolved returns the chain's edition |
| ProjectionConvergence.ResolvedEditionCanBecomeNull | artdrop/escrow_projection/handler.go:145-177 | two deliveries of one re-escrow after which a resolved edition is gone |
| EscrowReads.GetServesTheChain | artdrop/escrow_read_swap.go:26-41 | a single read never serves a wrong create-time field and, the escrow's events handled, serves the chain's summary |
| EscrowReads.GetIsServedIff | artdrop/escrow_read_swap.go:26-41 | and serves a row exactly when its edition is known |
| EscrowReads.ListingIsServedIff | artdrop/escrow_read_swap.go:62-102 | at every moment a listing is served, and not left to the chain, exactly when the table has a row and each matching row has its edition |
| EscrowReads.ListedSummariesAreTheChains | artdrop/escrow_read_swap.go:62-131 | every summary in a served listing is the one a single read serves, with the chain's create columns and edition and, its events handled, the chain's status, reason and claim |
| EscrowReads.EveryEscrowHasARow | artdrop/escrow_projection/store_gorm.go:30-115 | however the table was fed: a row belongs to an escrow of the chain and is right in what it knows; with all live events handled, an escrow any of them is about has a row, and so has every escrow, create columns included, if the listener saw the whole history |
| EscrowReads.ListingServesTheResolvedChain | artdrop/escrow_read_swap.go:62-102 | at every moment, however the table was fed, a served listing is in ascending order exactly the escrows asked for that the table knows enough of, so never a wrong one |
| EscrowReads.ListingIsCompleteIff | artdrop/escrow_read_swap.go:62-102 | and complete exactly when the table has, for every escrow asked for, a row with its edition (by edition) or with its create columns (by buyer or seller) |
| EscrowReads.ListingOverAllRowsIsCompleteIff | artdrop/escrow_projection/store_gorm.go:206-222 | where every escrow has a row: exactly when no stub is of that buyer or seller, no row without an edition of that edition |
| EscrowReads.EveryEscrowIsKnownIff | artdrop/escrow_read_swap.go:130-177 | with every live event handled, all escrows have their create columns exactly when those created before the cursor do |
| EscrowReads.StubIsNeverServed | artdrop/escrow_read_swap.go:26-41 | a stub of an escrow created before the cursor is never served by its id, whatever follows |
| EscrowReads.StubHidesAnEscrow | artdrop/escrow_projection/store_gorm.go:120-125 | a live event that overtakes the backfill: both listings are served without the escrow, with everything handled and a row for every escrow |
| EscrowReads.CertificateResolvesIff | artdrop/escrow_projection/store_gorm.go:127-140 | however the table was fed, it resolves a certificate to the chain's edition exactly when it has a complete row of one of its escrows |
| EscrowReads.EveryCertificateResolves | artdrop/escrow_projection/store_gorm.go:127-140 | with the whole history handled by the listener the table resolves every certificate to the chain's edition |
| EscrowReads.EditionListingIsCompleteIff | artdrop/escrow_projection/store_gorm.go:212-216 | where the listener saw the whole history, a listing by edition is complete exactly when no row without an edition has a certificate the table resolves to that edition |
| EscrowReads.EditionListingCanOmit | artdrop/escrow_projection/store_gorm.go:212-216 | a run after which one is left out |
| ChainListener.NoHeightIsSkipped | chain_events/listener.go:154-170 | in a run in which no initialisation jumps, with failures, restarts and several listeners: saved windows are contiguous and at most maxBlocks + 1 long, and the triggered heights are exactly those up to the furthest window, the cursor among them |
| ChainListener.CatchesUp | chain_events/listener.go:154-170 | polls without failure gain maxBlocks + 1 heights each until the listener has caught up |
| ChainListener.CursorNeverGoesBack | chain_events/listener.go:154-225 | in any run, whatever the starting heights, the cursor never decreases |
| ChainListener.HeightIsSkippedIffJumped | chain_events/listener.go:154-225 | in any run, each height the cursor passed lies in a saved window or in a jump and not in both, and is skipped exactly if jumped and not reached by an unsaved window |
| ChainListener.SkippedIffUnscanned | chain_events/listener.go:154-225 | between the first cursor and the height reached, cursor or furthest window, the skipped heights are exactly those no window held |
| ChainListener.SharedConfigNeverJumps | chain_events/listener.go:206-225 | with one shared starting height and a positioned cursor no initialisation jumps |
| ChainListener.RestartSkipsHeights | chain_events/listener.go:206-225 | a restart after which 11 to 99 are never scanned |
| ChainListener.TiledScans | chain_events/listener.go:154-170 | contiguous windows cover each height between their ends and no other |
| ChainListener.InitPositions | chain_events/listener.go:206-225 | initialisation never lowers the cursor, and positions it unless everything is zero |
| ChainListener.StartingHeightHonouredIff | chain_events/listener.go:206-225 | a fresh cursor starts at the configured height exactly when that is at least 2, or happens to follow the latest block |
| ChainListener.StartingHeightOneIsIgnored | chain_events/listener.go:206-225 | a starting height of 1 begins after the latest block |
| ChainListener.Listener.FetchAndTrigger | chain_events/listener.go:78-111 | all events are triggered, in order, or none if one fetch fails |
| ChainListener.Listener.InitCursor | chain_events/listener.go:206-225 | the initial cursor under the row lock |
| ChainListener.Listener.Tick | chain_events/store_gorm.go:20-45 | one locked read, window, trigger and save; a failed save leaves the cursor behind |
| ListenerProjection.LiveIsTriggered | chain_events/listener.go:78-111 | the events shown to the read model are exactly those of the triggered windows |
| ListenerProjection.ScannedEscrowsMirrorTheChain | chain_events/listener.go:78-170 | every escrow created after the first cursor and up to the current one equals the chain's fold up to the furthest triggered height |
| ListenerProjection.RowMirrorsTheCursorIff | chain_events/listener.go:154-170 | its row equals the chain's fold up to the cursor exactly when no event of that escrow lies beyond the cursor in a triggered window |
| ListenerProjection.RowMirrorsTheChainIffNothingIsSkipped | chain_events/listener.go:154-225 | in any run, restarts that jump included, the row of a created escrow equals the chain's fold up to the height reached exactly when no event of that escrow lies at a skipped height |
| ListenerProjection.RowCanBeAheadOfTheCursor | chain_events/store_gorm.go:20-45 | a failed save after which a row says released and the chain at the cursor says pending |
| ListenerProjection.FurthestIsCursorIff | chain_events/store_gorm.go:20-45 | that height is the cursor exactly when no unsaved window reaches beyond it |
| JobPool.RunKeepsInv | jobs/workerpool.go:364-426 | every prompt run keeps the lease invariant |
| JobPool.ExecutionsNeverOverlap | jobs/store_gorm.go:44-76 | no two executions of a job overlap, however many stale copies are queued, and the running copy is the row |
| JobPool.SecondExecutionStartsIff | jobs/store_gorm.go:44-76 | a second execution can start exactly when the first has outlived the grace period |
| JobPool.OverlapsIffTheCommitWasLost | datastore/lib/lib.go:8-31 | from any state, with nothing but time within the grace period after one acceptance, a second execution starts exactly if the first was never committed |
| JobPool.LeaseIsLostIff | jobs/store_gorm.go:44-76 | after any prompt run and any one further step, the row under a running worker is acceptable to others exactly if that worker's acceptance was not committed, its grace period is over, or a late Schedule overflowed |
| JobPool.LateScheduleOverlaps | jobs/workerpool.go:180-207 | the last of these lets two executions overlap within their grace period, every commit having happened |
| JobPool.ErrorLogShrinksIff | jobs/store_gorm.go:44-76 | after any prompt run a step takes entries from the row's error log exactly if it accepts a queued copy that lacks them, or is an overflowing Schedule |
| JobPool.StaleCopyErasesTheErrors | jobs/store_gorm.go:44-76 | a job polled twice: the second copy is accepted ahead of the reschedule delay and erases the error reported |
| JobPool.TerminalIsForGood | jobs/workerpool.go:364-426 | COMPLETE and FAILED are never left in a prompt run |
| JobPool.TerminalIsLeftIff | jobs/workerpool.go:180-207 | and by any step at all exactly by an overflowing Schedule of a creator that still holds its copy |
| JobPool.TerminalIsReachedIff | jobs/workerpool.go:364-426 | a job becomes COMPLETE exactly by its worker's written success, FAILED exactly by its worker's written error, permanent or beyond the limit |
| JobPool.FinishWrites | jobs/workerpool.go:382-426 | what the end of an execution writes: success clears the error and keeps the log, an error is appended to it, a lost connection writes nothing |
| JobPool.PolledAgainIff | jobs/store_gorm.go:78-93 | a job that erred or found no executor is polled again once the reschedule delay is over, one whose worker crashed once the grace period is |
| JobPool.ReportIsTerminalIff | jobs/workerpool.go:388-413 | an error report ends the job exactly when its update is written and it was permanent or beyond the limit |
| JobPool.LimitCanBeExceededIff | jobs/workerpool.go:388-413 | after maxErrors reports, one more can be followed by yet another exactly when its update was refused |
| JobPool.EveryLimitCanBeExceeded | jobs/workerpool.go:388-413 | under every configuration some run with one lost late update errs maxErrors + 2 times |
| JobPool.ErrorsAreBounded | jobs/workerpool.go:388-413 | in every prompt run the executor errs at most maxErrors + 1 times, plus once for each later report whose update was lost |
| JobPool.LostUpdateExceedsTheBudget | jobs/workerpool.go:388-413 | a run in which a lost update makes it one more |
| JobPool.LateScheduleReopensACompleteJob | jobs/workerpool.go:180-207 | a late overflow that reopens a COMPLETE job |
| JobPool.SilentCommitFailureOverlaps | datastore/lib/lib.go:8-31 | a commit failure nobody sees lets two executions overlap |
| JobPool.JobTable.UpdateJob | jobs/store_gorm.go:40-42 | every column of the caller's copy is saved |
| JobPool.JobTable.AcceptJob | jobs/store_gorm.go:44-76 | accepted exactly when copy and locked row are acceptable; counter from the row, all else from the copy |
| JobPool.JobTable.Process | jobs/workerpool.go:364-426 | accept, then execute and update, or give the job back for want of an executor, are the two steps of the transition system |
| OracleAggregate.MajorityBoundsThePrice | artdrop/purchase/pooloracle.go:403-440 | if a strict majority quotes within [lo, hi], the price is at least lo(1-d), at most hi(1+d) and inside the sanity band, whatever the others report |
| OracleAggregate.MajorityHoldsTheMedian | artdrop/purchase/pooloracle.go:442-453 | the median lies in any interval that holds a strict majority |
| OracleAggregate.PriceNearTheMedian | artdrop/purchase/pooloracle.go:412-423 | the price is within d of the median |
| OracleAggregate.PriceBetweenSurvivors | artdrop/purchase/pooloracle.go:424-440 | any bounds on the survivors' quotes bound the price |
| OracleAggregate.AggregateIgnoresOrder | artdrop/purchase/pooloracle.go:403-440 | price or refusal does not depend on the order of the pools |
| OracleAggregate.SurvivorBag | artdrop/purchase/pooloracle.go:417-423 | a quote survives, with its multiplicity, exactly when it is near the median |
| OracleAggregate.WideToleranceLosesTheBound | artdrop/purchase/pooloracle.go:403-440 | why the theorem needs the quotes non-negative when d exceeds 1: a list given to the function directly |
| OracleMean.DepositMovesThePrice | artdrop/purchase/pooloracle.go:424-440 | liquidity added to a pool near the median draws the price towards its quote by its share of all the survivors' liquidity; added to an outlier it changes nothing |
| OracleMean.MedianReflects | artdrop/purchase/pooloracle.go:442-453 | turned upside down, the quotes have their median at the same place |
| OracleMean.NearIff | artdrop/purchase/pooloracle.go:417-423 | a quote survives exactly up to the tolerance on either side of the median, the edge included |
| OracleMean.OutcomeOfPricedSpots | artdrop/purchase/pooloracle.go:403-440 | each refusal has exactly one cause: too few pools, none at all, too few near the median, none of those with liquidity; else the mean is the price exactly if it lies in the sanity band |
| OracleAggregate.ComputeAggregate | artdrop/purchase/pooloracle.go:403-440 | the loops compute the aggregate the theorems are about |
| OracleSpot.SpotsAgreeIff | artdrop/purchase/pooloracle.go:358-398 | where the root is exact, for both token orders, v3 equals v2 exactly when stableDec is not negative |
| OracleSpot.FormulasAgree | artdrop/purchase/pooloracle.go:358-398 | at the true real root v3 is v2 times 10^-stableDec if that exponent is positive, and v2 otherwise |
| OracleSpot.TruncatedRoot | artdrop/purchase/pooloracle.go:371-398 | truncating the root to p moves the spot by at most the fraction (2p+1)/p^2 |
| OracleSpot.StoredRootQuotesTheReserves | artdrop/purchase/pooloracle.go:358-398 | so a v3 pool quotes its reserves to that accuracy |
| OracleSpot.WeightIsTheStableLeg | artdrop/purchase/pooloracle.go:326-328 | the weight of a v2 pool is the amount of its stable leg |
| EvmDecode.DecodeHexBytes | artdrop/purchase/evmrpc.go:149-173 | the loop computes the scan of all digit pairs, or fails where one cannot be scanned |
| EvmDecode.DecodesIffScannable | artdrop/purchase/evmrpc.go:149-173 | text is refused exactly when some pair cannot be scanned; hex never is |
| EvmDecode.StrayDigitIsAccepted | artdrop/purchase/evmrpc.go:165-171 | a stray second character is swallowed |
| EvmDecode.AnswersDecode | artdrop/purchase/evmrpc.go:175-219 | decoding inverts the ABI hex encoding of 32-byte words; reserves need two of them |
| OracleBatch.BuildCalls | artdrop/purchase/pooloracle.go:274-297 | the batch and the slice each readable pool owns |
| OracleBatch.LayoutTiles | artdrop/purchase/pooloracle.go:274-297 | the slices are in range, follow each other and hold the pool's own calls |
| OracleBatch.SlicesPartitionTheBatch | artdrop/purchase/pooloracle.go:274-297 | every position belongs to exactly one pool |
| OracleBatch.BatchCall | artdrop/purchase/evmrpc.go:93-146 | the first well-formed reply fills the slots by id, ignoring errors and ids out of range |
| OracleBatch.RoutingIgnoresOrder | artdrop/purchase/evmrpc.go:127-143 | with distinct ids the slots do not depend on the order of the answers (JSON-RPC 2.0, section 6) |
| OracleBatch.EachPoolDecodesItsOwnAnswers | artdrop/purchase/pooloracle.go:251-268 | a pool yields the spot of its own calls if all were answered and is dropped otherwise; nothing else matters |
| OracleBatch.HonestAnswersGiveTheChainsSpots | artdrop/purchase/pooloracle.go:251-272 | honest answers, in any order and however incomplete, give the chain's spots of the fully answered pools, complete ones those of every pool |
| OracleBatch.ComputeSpot | artdrop/purchase/pooloracle.go:306-356 | every spot it yields has a positive price and a non-negative weight |
| OraclePools.ReservePoolSpot | artdrop/purchase/pooloracle.go:306-332 | a v2 pool yields a spot exactly when its reserves decode and are positive; its WFLOW leg at that price is worth its stable leg, which is its weight |
| OraclePools.RootPoolSpot | artdrop/purchase/pooloracle.go:334-352 | a v3 pool exactly when its root is positive and its balance not negative; it quotes the root, balances the reserves of an exact one, and is weighed by its balance |
| OraclePools.MirroredPoolQuotesTheSame | artdrop/purchase/pooloracle.go:319-330 | listing a pool's tokens the other way round leaves its spot the same |
| OraclePools.AnsweredPoolPricesItsLegs | artdrop/purchase/pooloracle.go:251-356 | end to end, in a batch of any pools: a pool whose calls were all answered, in any order, is priced in USD per WFLOW by its own reserves; any other is dropped |
| OraclePools.PriceIsWhatThePoolsExchangeFor | artdrop/purchase/pooloracle.go:251-272 | the price made of honest answers is within any bounds on what the pools' own tokens exchange for |
| OracleBatch.DecodedSpotsArePriced | artdrop/purchase/pooloracle.go:258-266 | all spots refresh aggregates have a positive price and a non-negative weight |
| OracleBatch.MajorityOfPoolsBoundsThePrice | artdrop/purchase/pooloracle.go:251-272 | whatever the endpoint answered, a strict majority of the pools that could be read bounds the price refresh makes of them |
| OracleBatch.DecodeAll | artdrop/purchase/pooloracle.go:258-266 | each slice is decoded by its pool, in order |
| OracleBatch.PoolPriceOracle.Refresh | artdrop/purchase/pooloracle.go:251-272 | the aggregate of the decoded slices, or an error when no url answered |
| OracleBatch.PoolPriceOracle.Latest | artdrop/purchase/pooloracle.go:196-233 | the cached price only within its TTL, else a fresh one that is stored; a failure leaves the cache alone and is reported, never covered by an old price |
| EscrowCache.AlwaysConsistent | artdrop/escrow_cache.go:58-127 | list and map hold the same distinct ids, at most cap of them |
| EscrowCache.OrderIsRecency | artdrop/escrow_cache.go:75-127 | without expiry the list is the first cap distinct ids of the reversed sequence of sets and hits |
| EscrowCache.HitIsLastAndFresh | artdrop/escrow_cache.go:75-95 | a hit returns the value last set for the id, released or within its TTL |
| EscrowCache.ListedIsFoundUntilDeadline | artdrop/escrow_cache.go:75-95 | a listed id is found at any time if released, otherwise exactly up to its deadline |
| EscrowCache.FetchesExactlyOnAMiss | artdrop/escrow_cache.go:129-166 | a lone caller fetches exactly on a miss; one that finds another's value on the second look does not fetch |
| EscrowCache.Cache.Get | artdrop/escrow_cache.go:75-95 | the answer, and the new list and map |
| EscrowCache.Cache.Set | artdrop/escrow_cache.go:97-117 | the new entry in front |
| EscrowCache.Cache.Evict | artdrop/escrow_cache.go:119-126 | the loop keeps the first cap ids, none for a capacity of zero or less |
| EscrowCache.Cache.GetOrFetch | artdrop/escrow_cache.go:129-166 | a failure or a missing escrow is not remembered |
| SharedFlight.FlightAnswersAllItsCallers | artdrop/escrow_cache.go:139-166 | the end of a flight answers every waiting caller, all alike |
| SharedFlight.CallersAreServed | artdrop/escrow_cache.go:129-166 | from any run: a caller gets what it finds without a fetch; one that misses gets what the second look of the flight it starts finds, or else what the fetch answers, which is stored if it is a value |
| SharedFlight.FetchedOnce | artdrop/escrow_cache.go:139-166 | while a cache keeps what it was given, any interleaving of callers makes at most one fetch succeed, and all values given are that one |
| SharedFlight.RefetchedIff | artdrop/escrow_cache.go:139-166 | after that exactly a second look that finds nothing starts another fetch |
| Flights.EscrowIsFetchedOnce | artdrop/escrow_cache.go:129-166 | any number of concurrent callers for an escrow the cache lacks or holds past its deadline cause one successful fetch, and every summary given is that one, while it is neither evicted nor looked for past its own deadline |
| Flights.BurstRefreshesOnce | artdrop/purchase/pooloracle.go:191-233 | any number of concurrent callers of Latest that begin with no price or an expired one cause one successful refresh, and every price given within its TTL is that one |
| KeyScheduler.EveryOtherKeyComesBetween | keys/store_gorm.go:23-47 | between two choices of a key every other key of the account is chosen |
| KeyScheduler.WindowIsDistinct | keys/store_gorm.go:23-72 | any n consecutive choices over n keys are different |
| KeyScheduler.ChoicesArePeriodic | keys/store_gorm.go:23-72 | and repeat with period n |
| KeyScheduler.OtherAccountsDoNotMatter | keys/store_gorm.go:23-47 | the calls for one account among others are a run of their own |
| KeyScheduler.KeyStore.AccountKey | keys/store_gorm.go:23-47 | takes an oldest key of the account, stamps it and extends the legal run of choices the theorems are about; without a key, or when locking fails, nothing changes |
| KeyScheduler.KeyStore.ProposalKeyIndex | keys/store_gorm.go:49-72 | the same among the first limit keys by id (all of them for a negative limit), answering with the key index |
| KeyScheduler.FirstKeysAreTheLowest | keys/store_gorm.go:49-66 | the limited keys are the lowest ids, as many as the limit allows |
| LocalIdempotency.RequestRunsIffTheKeyIsFree | handlers/idempotency.go:325-353 | after any run a request starts the handler exactly when no live record holds its key, and then reserves it |
| LocalIdempotency.RunsNeverOverlap | handlers/idempotency.go:434-505 | with one key, runs that end within the expiry never overlap |
| LocalIdempotency.SecondRunStartsIff | handlers/idempotency.go:325-353 | while a run is under way a request starts another exactly when the first has outlived its reservation |
| LocalIdempotency.ResponseIsReplayedUntilExpiry | handlers/idempotency.go:465-505 | after a run below 500 every request until expiry gets its status, content type and body, and no handler runs |
| LocalIdempotency.FailedRunFreesTheKey | handlers/idempotency.go:483-492 | after 500 and above the next request runs; after a lost run it conflicts until the reservation ends |
| LocalIdempotency.Store.TryReserve | handlers/idempotency.go:325-353 | reserved exactly when no live record exists |
| LocalIdempotency.Store.Get | handlers/idempotency.go:318-337 | live records only; an expired one is deleted |
| LocalIdempotency.Store.SetResponse | handlers/idempotency.go:355-369 | the completed record with a new expiry |
| LocalIdempotency.Store.Release | handlers/idempotency.go:371-377 | the key is gone |
| LocalIdempotency.Begin | handlers/idempotency.go:434-480 | which requests pass through, are refused, replayed, in conflict or run, and that only a checked request with a key touches the store |
| LocalIdempotency.End | handlers/idempotency.go:482-504 | release from 500 on, record below |
| LocalIdempotency.Recorder.WriteHeader | handlers/idempotency.go:384-393 | only the first header is kept and passed on |
| LocalIdempotency.Recorder.WriteBody | handlers/idempotency.go:395-404 | the body as sent |
| LocalIdempotency.Recorder.FinalStatusCode | handlers/idempotency.go:416-422 | the status and body recorded of everything the handler did |
| LocalIdempotency.RecordMatchesTheWireIff | handlers/idempotency.go:384-422 | the body recorded is the one sent exactly unless bytes were written under 101, 204 or 304, and the status exactly unless the handler opened with an informational header |
| LocalIdempotency.ReplayRepeatsTheWire | handlers/idempotency.go:424-430 | whatever the handler did, replaying its record puts the same final status and body on the wire as the first client got |
| LocalIdempotency.EarlyHintsAreRecorded | handlers/idempotency.go:384-422 | a handler for which 103 is recorded and 200 was sent |
| IssueSync.DoneIsUnchanged | plan/sync_issues.py:160-229 | a run marks no task done and undoes none |
| IssueSync.SecondRunChangesNothing | plan/sync_issues.py:167-229 | a second run changes nothing |
| IssueSync.RunsCommute | plan/sync_issues.py:167-229 | runs for different repositories commute |
| IssueSync.ReadyIffDependenciesDone | plan/sync_issues.py:160-166 | a task is ready exactly when each of its dependencies is a task of the plan whose own issue, in whatever repository, is done |
| IssueSync.EveryTaskIsSettled | plan/sync_issues.py:167-229 | what every task's issue becomes once its repository was synced |
| IssueSync.PlanNeverStalls | plan/sync_issues.py:160-229 | with acyclic dependencies on known tasks, after syncing every repository all tasks are done or some issue is open with its dependencies done |
| IssueSync.InterruptedRunKeepsDoneIff | plan/sync_issues.py:211-226 | a run stopped after any command keeps the done tasks exactly unless it stopped between removing a label and reopening |
| IssueSync.StrandedIssueStaysDone | plan/sync_issues.py:211-220 | the task stranded there counts as done in every later run |
| IssueSync.CommandsGiveSynced | plan/sync_issues.py:184-226 | the commands of a run, one by one, have the run's effect |
| IssueSync.Tracker.Sync | plan/sync_issues.py:167-229 | for any plan, the loop runs exactly the commands of the run, a dry run none, and it reports no change exactly when there is none; with unique ids the outcome is the run's effect on every task |

## Left out

- Transport and outside services (payment provider, Flow node, EVM endpoint, Mongo, KMS, webhooks): each is an outcome parameter.
- The validation of request fields before the reservation, the price and fee computation, and the amounts on a charge (an opaque value here).
- The Redis idempotency store, and the retry loop around saving a response, whose final failure is the `Lose` action.
- The sqlite branch without transactions, and what a PostgreSQL statement sees while another commits.
- Integer widths: heights, ids and counters are unbounded, so window arithmetic near the top of uint64 does not wrap.
- The race of two first creations of the listener's status row.
- Events whose fields cannot be decoded, and upserts that fail (such an event is lost to the read model).
- Nonce, LastEventHeight and UpdatedAt of a projected escrow; the wall-clock ClaimedAt is carried and not promised.
- ResyncFromChain racing live events; the method itself is modelled.
- OpenEscrow on a purchase that does not exist.
- Rounding of float64 in the oracle; white space beyond ASCII in a hex result.
- Flush and ReadFrom of a response writer, which the idempotency recorder does not wrap (`handlers/idempotency.go:406-414`): a handler that uses them goes past the recorder.
- LocalIdempotency.ResponseIsReplayedUntilExpiry: headers other than Content-Type are neither recorded nor replayed by the source; the content type is the one the handler left, which a sniffing server may refine.
- EscrowCache.Cache.GetOrFetch: the method is one caller; concurrent callers are the transition system of `SharedFlight`.
- OracleBatch.PoolPriceOracle.Latest: likewise.
- KeyScheduler: key insertion and deletion during a run.
- JobPool: job payloads, notifications and the choice of executor by type.
- IssueSync: the theorems are about plans with unique ids; which of two issues with one id a listing shows is not modelled (the last created stands). Milestones, titles and other labels are not modelled, nor a failed or truncated (500 issues) read of a repository, which would make the script create duplicates.
- Other plugins, HTTP routing, account and transaction services, JWT and CORS: they would add easy members.
