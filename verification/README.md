# Verified model of the FastAPI starter template's core protocols

The service keeps four kinds of promises across its transactions, clocks and
caches, and this project states and proves them in Dafny:

1. **Transactional outbox.** Producers commit rows; relay workers claim due
   rows, hand them to the in-process job queue, and settle each one as
   delivered, retried with a backoff, or failed. A dedup mark written by the
   handler is meant to keep a mail from going out twice, and a pruner deletes
   old rows and marks.
2. **Sessions and one-time tokens.** Refresh tokens are rotated inside
   families, reuse revokes a family, and password-reset and verification tokens
   are single-use.
3. **Authorization.** A registry of resource types, a check that walks parents
   up to the type that stores tuples, a reverse lookup, and version bumps that
   end access tokens through a short-lived principal cache.
4. **Rate limits and audit pages.** Two sliding-window limiters that should
   decide like a plain log, and keyset pages over a log that keeps changing.

Operations that update state are classes whose methods, with their loops, are
proved against specification functions. Runs of those functions are then the
subject of the theorems: each run is an arbitrary sequence of steps, so a
statement about the state after a run holds of every reachable state.

## Layout

| file | content |
|---|---|
| `Prelude.dfy`, `OrderedSelect.dfy` | shared definitions; `ORDER BY … LIMIT` over a finite table |
| `OutboxModel.dfy`, `OutboxRelay.dfy` | rows, backoff, handler; the repository, queue and tick classes |
| `OutboxProgress.dfy`, `OutboxFairness.dfy`, `OutboxRetention.dfy` | one worker: budget, no starvation, mark retention |
| `OutboxWorkers.dfy`, `OutboxGuarantees.dfy`, `OutboxMail.dfy`, `OutboxDelivery.dfy`, `OutboxTerminal.dfy`, `OutboxBudget.dfy` | any number of workers, interleaved and crashing: sends per mark, whose mail went out, when terminal rows change, the retry budget |
| `OutboxTickRuns.dfy` | a tick is one of those runs |
| `OutboxPrune.dfy` | the batched sweep |
| `RefreshTokens.dfy`, `SessionRuns.dfy`, `SessionGuarantees.dfy` | refresh tokens |
| `InternalTokens.dfy`, `AccountRuns.dfy` | reset and verification tokens |
| `AuthzRegistry.dfy`, `AuthzEngine.dfy` | registry, check, lookup, writes |
| `PrincipalCache.dfy`, `PrincipalCacheRedis.dfy`, `PrincipalResolution.dfy`, `PrincipalStaleness.dfy`, `PrincipalRuns.dfy` | principal caches, bounded staleness, resolutions as its runs |
| `RateLimit.dfy` | both limiters against the log |
| `AuditPages.dfy` | the audit page walk |

## Modelling decisions

- A database transaction, and a Redis pipeline or script, is one atomic step.
  Steps of different actors interleave freely. `FOR UPDATE SKIP LOCKED` becomes
  a free choice among the due rows.
- Ids are naturals, and newly drawn UUIDs are ids not used before. Token hashes
  are injective, so a hash stands for its raw token. Clock readings are integer
  ticks and are arguments of the operations.
- JWT decoding is abstracted: an access token is its id, and each id stands for
  fixed claims. `parent_of` is a function that does not change during one check.
- What a mail port, a handler or another process does is an argument of the
  step that calls it, and every theorem holds for all such arguments.
- The in-process TTL cache of the limiter evicts the least recently used key.
  The principal cache leaves open which entry is evicted.

## Where the code departs from its own documentation

The model follows the code. Each departure is proved.

- `docs/outbox.md` promises at-least-once delivery. The handler commits its mark
  before it sends, so a failed send is skipped by the retry and the row ends
  delivered: `FailedSendEndsDelivered` and `DeliveredUnposted`.
  `DeliveredMeansAccepted` says exactly when a delivered row's own mail was
  accepted, for every delivered row. Two rows may carry one dedup key, and then one of them can be
  delivered unsent: `SharedKeyLosesMail`.
- `docs/outbox.md` calls the row states a strict machine. With two workers a
  delivered row can become failed: `DeliveryUndone`. `TerminalChangesIff` says
  exactly when, and `ExclusiveRunIsStrict` that claims which do not overlap keep
  the machine strict.
- `docs/outbox.md` says a row is terminal by the time its mark is deleted. It
  need not be when a worker falls behind, an operator re-arms or a redelivery
  raises early: `LatePruneResends`, `LateRearmResends`, `EarlyRaiseResends`. A
  prune within the retention of a mark never is the cause: `MarkedNeverResent`.
- `docs/outbox.md` calls `APP_OUTBOX_MAX_ATTEMPTS` the per-row retry budget. With
  two workers the attempts can fall and a row can be dispatched more often:
  `AttemptsFallBack`, with a bound in `DispatchBound` and the documented budget
  for claims that do not overlap in `ExclusiveBudget`.
- Logout reads and revokes in two transactions, and a refresh in between keeps
  the session alive: `LogoutEndsFamilyIff` and `LogoutRaceKeepsSession`.
- The user entity's comment says that a version bump takes effect immediately. A
  cached principal is served until its entry expires or is invalidated:
  `RaiseAloneKeepsServing`, `BoundedStaleness`, `RefusedAtOnceIff`.
- The Redis cache's comment calls invalidation one pipeline call. It is two
  calls, and a second invalidation overlapping a first returns too early:
  `OverlappingInvalidation`, with the exact condition in
  `PrincipalCacheRedis.InvalidatedUntilNextSet`.
- The engine's walk has no cycle guard. It ends where the lookups along it are
  coherent and need not elsewhere: `CoherentWalkStops`,
  `EndlessWalkIsIncoherent`, `IncoherentWalkDiverges`.
- The limiters treat an attempt exactly one window old differently:
  `LimitersDifferIff` and, over whole runs, `LimitersAgreeIff`. A full limiter
  cache that evicts a live key forgets its attempts: `EvictionHarmlessIff` and
  `HarmfulEviction`.

## Model

| member | source | states |
|---|---|---|
| `OutboxModel.ClaimIds` | src/features/outbox/adapters/outbound/sqlmodel/repository.py:64-92 | a claim takes the first `batch_size` due pending rows in (available_at, id) order, and none for a non-positive limit |
| `OutboxModel.ClaimMeaning` | src/features/outbox/adapters/outbound/sqlmodel/repository.py:64-92 | row by row: every claimed row is pending and due, they come in (available_at, id) order, and a due row is left out only if the batch is full of earlier ones |
| `OutboxModel.BackoffBounds` | src/features/outbox/application/use_cases/dispatch_pending.py:147-156 | delays lie between the base and the cap and never shrink from one retry to the next |
| `OutboxModel.BackoffDoubles` | src/features/outbox/application/use_cases/dispatch_pending.py:147-156 | the first delay is the base, and each delay is twice the one before, capped |
| `OutboxModel.SettleMeaning` | src/features/outbox/adapters/outbound/sqlmodel/repository.py:111-170 | a settlement writes its own row only: delivered if the call returned, failed if it was the last attempt of the snapshot, otherwise due again after the backoff with the status left alone; each column said |
| `OutboxModel.RearmMeaning` | src/features/outbox/management.py:22-46 | a re-arm changes exactly the failed rows: pending, due now, no attempts used, no error and no lock |
| `OutboxModel.KeyedMeaning` | src/features/email/composition/jobs.py:69-106 | with a key, the row's own id unless the payload carries one: a marked key returns at once, otherwise the mark is written first and the mail port is called unless a field is missing |
| `OutboxModel.KeylessMeaning` | src/features/email/composition/jobs.py:69-106 | without a usable key the handler runs undeduplicated and leaves no mark |
| `OutboxRelay.OutboxRepository.ClaimBatch` | src/features/outbox/adapters/outbound/sqlmodel/repository.py:49-109 | the returned copies are the claim described row by row; exactly those rows get the lock columns, and nothing else changes in the table |
| `OutboxRelay.OutboxRepository.SetDelivered` | src/features/outbox/adapters/outbound/sqlmodel/repository.py:111-127 | writes exactly status, delivery time and lock columns, with no status guard, and is a no-op when the row is gone |
| `OutboxRelay.OutboxRepository.SetRetry` | src/features/outbox/adapters/outbound/sqlmodel/repository.py:129-148 | writes exactly attempts, error, due date and lock columns, not the status, with no status guard, and is a no-op when the row is gone |
| `OutboxRelay.OutboxRepository.SetFailed` | src/features/outbox/adapters/outbound/sqlmodel/repository.py:150-170 | writes exactly status, attempts, error, failure time and lock columns, with no status guard, and is a no-op when the row is gone |
| `OutboxRelay.InProcessQueue.Dedupe` | src/features/outbox/composition/handler_dedupe.py:55-74 | true exactly when the key had no mark, and then the mark is inserted |
| `OutboxRelay.InProcessQueue.Enqueue` | src/features/email/composition/jobs.py:69-106 | runs the handler inline: dedup, then send or raise; marks, sends and the exception are those of the handler specification |
| `OutboxRelay.DispatchPending.DispatchRow` | src/features/outbox/application/use_cases/dispatch_pending.py:105-171 | one row is enqueued and settled from its snapshot, whatever has become of the row since it was claimed; the outcome reported is the row's status afterwards, except that a retry leaves the status alone; other rows are untouched |
| `OutboxRelay.DispatchPending.DispatchBatch` | src/features/outbox/application/use_cases/dispatch_pending.py:105-171 | the loop settles every snapshot of any batch in order, and the three counters partition the batch by what each dispatch came to |
| `OutboxRelay.CountedIsEnded` | src/features/outbox/application/use_cases/dispatch_pending.py:105-171 | for pending rows dispatched once each, those counts are the numbers of rows that end in each status |
| `OutboxRelay.DispatchPending.Execute` | src/features/outbox/application/use_cases/dispatch_pending.py:88-189 | the tick equals its specification, and the report satisfies claimed = dispatched + retried + failed with each count the rows in that final status |
| `OutboxProgress.TickEffect` | src/features/outbox/application/use_cases/dispatch_pending.py:88-189 | what a whole tick does to every row: claimed rows get exactly one settlement, all others stay as they were |
| `OutboxProgress.TickSpendsBudget` | src/features/outbox/application/use_cases/dispatch_pending.py:125-164 | each tick lowers the sum over pending rows of max_attempts − attempts by at least the number claimed |
| `OutboxProgress.RunSpendsBudget` | src/features/outbox/application/use_cases/dispatch_pending.py:88-189 | over a whole run dispatches never exceed the attempts left at the start |
| `OutboxProgress.RunDrains` | src/features/outbox/application/use_cases/dispatch_pending.py:88-189 | however the ticks are spaced, a run whose ticks contain as many rounds (ticks a full backoff cap apart, any others in between) as attempts are left ends with all rows terminal, whatever the handlers do |
| `OutboxProgress.TerminalUntouched` | src/features/outbox/adapters/outbound/sqlmodel/repository.py:64-92 | with one worker a terminal row is never touched again |
| `OutboxProgress.FailingRowSchedule` | src/features/outbox/application/use_cases/dispatch_pending.py:125-164 | a row never delivered is dispatched once per attempt, each time at least its backoff after the last, and fails exactly when its budget is used up |
| `OutboxProgress.FailingRowSpread` | src/features/outbox/application/use_cases/dispatch_pending.py:147-156 | in every run that leaves a row undelivered its first and last dispatch are at least the sum of the backoffs between them apart, all of its backoffs if it fails |
| `OutboxFairness.RetriedFallBehind` | src/features/outbox/application/use_cases/dispatch_pending.py:147-156 | a retried row always re-enters behind a row that was already due |
| `OutboxFairness.RoundProgress` | src/features/outbox/adapters/outbound/sqlmodel/repository.py:64-92 | a tick that passes a due row over leaves it unchanged with a full batch fewer rows ahead of it |
| `OutboxFairness.NoStarvation` | src/features/outbox/adapters/outbound/sqlmodel/repository.py:64-92 | a due row with k rows ahead is claimed within k / batch_size + 1 ticks whatever fails |
| `OutboxRetention.TickKeepsInv` | src/features/outbox/application/use_cases/dispatch_pending.py:105-171 | a tick keeps every sent pending row guarded by a mark young enough to outlive its next dispatch |
| `OutboxRetention.PruneKeepsInv` | src/features/outbox/application/use_cases/maintenance/prune_outbox.py:94-113 | a prune that does not overtake an overdue retry never removes a mark still needed |
| `OutboxRetention.SweepIsPrune` | src/features/outbox/application/use_cases/maintenance/prune_outbox.py:67-126 | the batched sweep, with marks kept for twice the backoff cap, is the prune step of these runs |
| `OutboxRetention.OpMeaning` | src/features/outbox/management.py:22-46 | what a producer insert and a re-arm do to the tables of these runs, row by row |
| `OutboxRetention.RetentionSuffices` | src/features/outbox/composition/settings.py:126-136 | twice the backoff cap suffices: in every run of ticks, inserts, prunes and re-arms that bring a sent row round again while its mark is young, the mail port is called at most once per row |
| `OutboxRetention.SentAtMostOnce` | src/features/outbox/composition/handler_dedupe.py:55-74 | without any clock: in every run whose prunes spare the marks of sent rows still pending and whose re-arms revive no sent row without its mark, each row is sent at most once, whatever ticks do and when |
| `OutboxRetention.ResentIffUnmarked` | src/features/outbox/composition/handler_dedupe.py:55-74 | whatever brought a sent row round again, and whatever keys other rows carry as long as none is this row's id, its next dispatch sends it a second time if and only if its mark is gone |
| `OutboxRetention.ResentIffPrunedLate` | src/features/outbox/application/use_cases/maintenance/prune_outbox.py:94-113 | a waiting retry is sent a second time by its next dispatch if and only if a prune ran more than twice the retry cap after its mark |
| `OutboxRetention.MarkedNeverResent` | src/features/outbox/application/use_cases/maintenance/prune_outbox.py:94-113 | a marked row is never sent again by any run of ticks, early raises, re-arms and inserts whose prunes all come within the retention of its mark |
| `OutboxRetention.LatePruneResends` | src/features/outbox/application/use_cases/maintenance/prune_outbox.py:94-113 | conversely, after a prune later than that some run of ticks sends a pending row again, however many rows are ahead of it |
| `OutboxRetention.LateRearmResends` | src/features/outbox/management.py:22-46 | so it is for a failed row that outlives the late prune and is re-armed |
| `OutboxRetention.EarlyRaiseResends` | src/features/outbox/application/use_cases/maintenance/prune_outbox.py:94-113 | so it is for a redelivery that raises before the dedup insert and comes due after its mark may go, although no prune comes later than the row's due date |
| `OutboxRetention.LateWorkerSendsTwice` | src/features/outbox/application/use_cases/maintenance/prune_outbox.py:94-113 | under every configuration with a retry there is a run that sends twice |
| `OutboxWorkers.AccountedNext` | src/features/outbox/composition/handler_dedupe.py:55-74 | every step keeps the books: accepted sends + lost runs + sends in flight = inserts of the mark |
| `OutboxWorkers.InvNext` | src/features/outbox/application/use_cases/dispatch_pending.py:105-171 | every step of any worker keeps the row, snapshot and call invariants |
| `OutboxWorkers.InvRun` | src/features/outbox/application/use_cases/dispatch_pending.py:105-171 | they hold in every state reached by any interleaving with any crashes |
| `OutboxTickRuns.TickIsRun` | src/features/outbox/application/use_cases/dispatch_pending.py:88-189 | every tick of an idle worker is a sequence of interleaved steps with the same rows, marks and sends |
| `OutboxGuarantees.AtMostOncePerMark` | src/features/email/composition/jobs.py:69-92 | over every interleaving the mail port is called for a row at most once per insert of its mark: once while the mark is kept |
| `OutboxDelivery.DeliveredMeansAccepted` | src/features/email/composition/jobs.py:69-106 | for every delivered row of every reachable state, marks pruned or not: its own mail was accepted if and only if more of its handler runs got past dedup than were dropped or are in flight; a row without a key was accepted; with a key, some row carrying it got past dedup, this one if no other carries it |
| `OutboxDelivery.DeliveryNext` | src/features/email/composition/jobs.py:69-106 | every step keeps the books per row: runs past dedup = accepted + dropped + in flight |
| `OutboxMail.AcceptedOnceUnderMark` | src/features/email/composition/jobs.py:69-106 | while its mark is never pruned a delivered row's own mail was accepted at most once, and it was if and only if the one run past the dedup insert was this row's and neither raised, crashed nor is in flight |
| `OutboxMail.MailNext` | src/features/outbox/composition/handler_dedupe.py:55-74 | every step keeps: all that is accepted under a mark never pruned is the mail of the row whose run inserted it |
| `OutboxMail.DeliveredUnposted` | src/features/email/composition/jobs.py:69-106 | from the empty tables, under every configuration with a retry, a row can end delivered although its mail was never accepted |
| `OutboxMail.SharedKeyLosesMail` | src/features/outbox/composition/handler_dedupe.py:55-74 | from the empty tables a row that shares another row's key can be delivered without a single mail-port call |
| `OutboxGuarantees.RowsAlwaysOk` | src/features/outbox/adapters/outbound/sqlmodel/repository.py:111-170 | in every reachable state pending rows have attempts left, attempts never exceed the maximum, and terminal rows carry their timestamp |
| `OutboxGuarantees.BackToPending` | src/features/outbox/management.py:22-46 | a row becomes pending again only by the operator's re-arm and only from failed |
| `OutboxGuarantees.MaintenanceMeaning` | src/features/outbox/management.py:22-46 | a re-arm revives every failed row and no other, a row prune removes exactly the terminal rows older than the cutoff of their status, a mark prune the older marks; none touches a worker |
| `OutboxTerminal.StrictStep` | src/features/outbox/adapters/outbound/sqlmodel/repository.py:111-170 | with exclusive claims a terminal row changes only by re-arm or prune |
| `OutboxTerminal.TerminalChangesIff` | src/features/outbox/adapters/outbound/sqlmodel/repository.py:111-170 | some continuation without re-arm changes the status of a terminal row if and only if a worker holds a copy of it that can still settle the other way |
| `OutboxTerminal.ExclusiveRunIsStrict` | src/features/outbox/adapters/outbound/sqlmodel/repository.py:64-92 | along every run of exclusive claims no terminal row is held, so each is final from the moment it becomes terminal |
| `OutboxTerminal.TerminalAbsorbing` | src/features/outbox/adapters/outbound/sqlmodel/repository.py:111-170 | a terminal row that no worker holds is pruned or stays exactly as it is over every run without re-arm, however claims of other rows overlap |
| `OutboxTerminal.StaleWorkerUndoesDelivery` | src/features/outbox/adapters/outbound/sqlmodel/repository.py:64-92 | from every contended last attempt two overlapping claims turn a delivered row into a failed one |
| `OutboxTerminal.DeliveryUndone` | src/features/outbox/adapters/outbound/sqlmodel/repository.py:64-92 | from the empty tables, under every configuration with two workers, a delivered row can become failed without re-arm |
| `OutboxBudget.AttemptsFallBack` | src/features/outbox/adapters/outbound/sqlmodel/repository.py:129-148 | from the empty tables, under every configuration with a retry and two workers, a stale copy throws a row's attempts from max_attempts - 1 back to one, and it is dispatched 2 * max_attempts - 1 times before it fails |
| `OutboxBudget.DispatchBound` | src/features/outbox/application/use_cases/dispatch_pending.py:125-164 | with n workers and any interleaving without crashes and re-arms a row is dispatched at most n + n^2 + ... + n^max_attempts times |
| `OutboxBudget.ShareOne` | src/features/outbox/application/use_cases/dispatch_pending.py:125-164 | with one worker that bound is the documented budget |
| `OutboxBudget.ExclusiveFailureCounts` | src/features/outbox/adapters/outbound/sqlmodel/repository.py:129-170 | with claims that do not overlap every failing settlement raises the attempts by one |
| `OutboxBudget.ExclusiveBudget` | src/features/outbox/application/use_cases/dispatch_pending.py:125-164 | while claims do not overlap, and without crashes and re-arms, a row is dispatched no more often than it has attempts left, `max_attempts` times in all |
| `OutboxGuarantees.FailedSendEndsDelivered` | src/features/email/composition/jobs.py:69-106 | from every untried row there is a run that ends delivered with no mail accepted |
| `OutboxPrune.OldestBatch` | src/features/outbox/adapters/outbound/sqlmodel/repository.py:172-243 | one batch is as many eligible rows as fit, oldest first |
| `OutboxPrune.OldestFirst` | src/features/outbox/adapters/outbound/sqlmodel/repository.py:172-243 | a row left for a later batch is no older, by the column the delete filters on, than any row taken |
| `OutboxPrune.OutboxTables.DeleteBatch` | src/features/outbox/adapters/outbound/sqlmodel/repository.py:172-243 | removes exactly one such batch and returns its size |
| `OutboxPrune.OutboxTables.Drain` | src/features/outbox/application/use_cases/maintenance/prune_outbox.py:129-142 | terminates for every batch size, removes exactly the eligible rows and returns their number |
| `OutboxPrune.PruneOutbox` | src/features/outbox/application/use_cases/maintenance/prune_outbox.py:67-126 | the sweep at `now` equals one unbounded delete per table of what is older than its own retention (delivered rows, failed rows, marks), independent of batch size, and each count is the number of rows of its kind that were eligible |
| `OutboxPrune.PruneKeepsPending` | src/features/outbox/adapters/outbound/sqlmodel/repository.py:172-222 | pruning keeps every pending row, keeps a terminal row exactly if its own timestamp is not before the cutoff of its status, and changes none it keeps |
| `OutboxPrune.PruneKeepsYoungMarks` | src/features/outbox/application/use_cases/maintenance/prune_outbox.py:94-113 | exactly the marks older than the retention go |
| `OutboxPrune.CountsRemoved` | src/features/outbox/application/use_cases/maintenance/prune_outbox.py:67-126 | the three counts are the numbers of rows that are gone |
| `RefreshTokens.RefreshTokenRepository.CreateRefreshToken` | src/features/authentication/adapters/outbound/persistence/sqlmodel/repository.py:145-175 | inserts one live row and changes no other; refused exactly for a stored hash or a family owned by another user, and then nothing changes |
| `RefreshTokens.RefreshTokenRepository.RevokeRefreshToken` | src/features/authentication/adapters/outbound/persistence/sqlmodel/repository.py:177-185 | stamps the row unless it is stamped, records its successor, and leaves every other row as it was |
| `RefreshTokens.RefreshTokenRepository.RevokeRefreshFamily` | src/features/authentication/adapters/outbound/persistence/sqlmodel/repository.py:187-196 | every live row of the family gets the stamp and nothing else, and every other row, of this and of other families, stays as it was |
| `RefreshTokens.RefreshTokenRepository.RevokeUserRefreshTokens` | src/features/authentication/adapters/outbound/persistence/sqlmodel/repository.py:258-268 | every live row of the user gets the stamp and nothing else, and every other row stays as it was |
| `RefreshTokens.RefreshTokenRepository.RotateRefreshToken` | src/features/authentication/application/use_cases/auth/refresh_token.py:72-151 | the rotation transaction equals its specification on every branch, errors included |
| `RefreshTokens.RefreshTokenRepository.DeleteExpiredRefreshTokens` | src/features/authentication/adapters/outbound/persistence/sqlmodel/repository.py:883-917 | the batched purge keeps exactly the rows neither expired nor revoked before the cutoff, clears links to rows that are gone, and returns how many went |
| `RefreshTokens.RotateOutcome` | src/features/authentication/application/use_cases/auth/refresh_token.py:89-151 | a stored token rotates if and only if it is live, unexpired, its user active and the new hash unused; then exactly it and its live successor change. A revoked token revokes the live rows of its family and leaves other families alone, an expired one is revoked alone, and the other refusals, each with its exact cause, change nothing |
| `RefreshTokens.RotateUnknown` | src/features/authentication/application/use_cases/auth/refresh_token.py:72-95 | a missing or unstored token is refused and changes nothing |
| `SessionRuns.RefreshIsRotation` | src/features/authentication/application/use_cases/auth/refresh_token.py:72-151 | a refresh step of a run leaves the store of the rotation transaction |
| `SessionRuns.InvNext` | src/features/authentication/adapters/outbound/persistence/sqlmodel/repository.py:145-196 | login, refresh, both steps of logout, logout-all, purge and erasure keep the family invariants |
| `SessionGuarantees.FamiliesStayLinear` | src/features/authentication/adapters/outbound/persistence/sqlmodel/repository.py:145-196 | in every run a family has at most one live token, the newest ever created in it; one user per family; links point to later rows of the family and never dangle |
| `SessionGuarantees.RevocationPermanent` | src/features/authentication/adapters/outbound/persistence/sqlmodel/repository.py:177-196 | over every continuation revoked_at never changes once set |
| `SessionGuarantees.RotatedAtMostOnce` | src/features/authentication/application/use_cases/auth/refresh_token.py:89-151 | each raw refresh token yields at most one rotation in any run |
| `SessionGuarantees.ReuseKillsFamily` | src/features/authentication/application/use_cases/auth/refresh_token.py:89-112 | presenting a stored revoked token is refused and leaves its family without a live row |
| `SessionGuarantees.DeadForever` | src/features/authentication/application/use_cases/auth/refresh_token.py:89-151 | from a family without a live row no continuation rotates in it again |
| `SessionGuarantees.TheftEndsFamily` | src/features/authentication/application/use_cases/auth/refresh_token.py:89-151 | a token rotated once and presented again any number of steps later gets nothing; if its row is still stored the family is dead for ever, and if it was purged nothing changes |
| `SessionGuarantees.LogoutEndsFamilyIff` | src/features/authentication/application/use_cases/auth/logout_user.py:22-31 | a logout ends its session if and only if the token it read is still stored and live at the revoke, or the family was dead already |
| `SessionGuarantees.LogoutRaceKeepsSession` | src/features/authentication/application/use_cases/auth/logout_user.py:22-31 | a refresh between the two steps of a logout leaves the session alive |
| `SessionGuarantees.PurgeKeepsLiveTokens` | src/features/authentication/adapters/outbound/persistence/sqlmodel/repository.py:883-917 | a purge with a cutoff no later than now removes no live unexpired token |
| `SessionGuarantees.PurgeKeepsExactly` | src/features/authentication/adapters/outbound/persistence/sqlmodel/repository.py:883-917 | a purge keeps exactly the tokens neither expired nor revoked before the cutoff |
| `SessionGuarantees.OtherUsersUntouched` | src/features/authentication/adapters/outbound/persistence/sqlmodel/repository.py:145-196 | no session step of one user changes a row of another |
| `SessionGuarantees.EraseRemovesUser` | src/features/users/application/use_cases/erase_user.py:89-94 | an erasure removes exactly the user's rows |
| `SessionGuarantees.LogoutAllEndsUser` | src/features/authentication/adapters/outbound/persistence/sqlmodel/repository.py:258-268 | logging out everywhere leaves none of the user's families a live row |
| `SessionGuarantees.LoginStores` | src/features/authentication/adapters/outbound/persistence/sqlmodel/repository.py:145-175 | a login stores one live token of its user and family until its expiry and changes no other |
| `SessionGuarantees.LogoutNotes` | src/features/authentication/application/use_cases/auth/logout_user.py:22-31 | a logout goes on to its second step exactly for a stored live token |
| `InternalTokens.AccountStore.RequestToken` | src/features/authentication/application/use_cases/auth/request_password_reset.py:72-107 | stamps the older unused tokens of the user and purpose and inserts the new one, or changes nothing, exactly on a hash collision |
| `InternalTokens.IssueMeaning` | src/features/authentication/adapters/outbound/persistence/sqlmodel/repository.py:451-473 | token by token: only unused tokens of this user and this purpose are stamped, and one is added |
| `InternalTokens.AccountStore.ConfirmPasswordReset` | src/features/authentication/application/use_cases/auth/confirm_password_reset.py:39-82 | on acceptance the token is used, the credential replaced, the user's version one higher and no other, and the refresh rows revoked; on refusal nothing changes |
| `InternalTokens.AccountStore.ConfirmEmailVerification` | src/features/authentication/application/use_cases/auth/confirm_email_verification.py:38-74 | on acceptance the token is used and the user verified; on refusal nothing changes |
| `InternalTokens.AccountStore.DeleteExpiredInternalTokens` | src/features/authentication/adapters/outbound/persistence/sqlmodel/repository.py:919-948 | the batched purge keeps exactly the tokens neither used nor expired before the cutoff, unchanged, and returns how many went |
| `AccountRuns.SingleUse` | src/features/authentication/adapters/outbound/persistence/sqlmodel/repository.py:430-473 | in every run each internal token is accepted at most once and a user has at most one unused token per purpose |
| `AccountRuns.RefusedConfirmChangesNothing` | src/features/authentication/application/use_cases/auth/confirm_password_reset.py:53-82 | a refused confirm changes nothing; accepted if and only if stored for the purpose, bound to a user, unexpired and unused |
| `AccountRuns.RequestSupersedes` | src/features/authentication/adapters/outbound/persistence/sqlmodel/repository.py:451-473 | older tokens of the user and purpose stop working when a new one is requested |
| `AccountRuns.RequestWorks` | src/features/authentication/application/use_cases/auth/request_password_reset.py:72-107 | a requested token is accepted until it expires, the first one of a user included |
| `AccountRuns.RequestSparesOthers` | src/features/authentication/adapters/outbound/persistence/sqlmodel/repository.py:451-473 | a request leaves every token of another user or purpose, and what a confirmation of it decides, as it was |
| `AccountRuns.ConfirmSparesOthers` | src/features/authentication/application/use_cases/auth/confirm_password_reset.py:53-82 | a confirmation changes no other token, and nothing of any other user: credential, version, verification, refresh rows |
| `AccountRuns.ConfirmDoes` | src/features/authentication/application/use_cases/auth/confirm_email_verification.py:38-74 | an accepted verification uses the token and marks the user verified and nothing else; an accepted reset replaces the credential, raises the version by one and revokes exactly the live refresh tokens of the user |
| `AccountRuns.InternalRemovals` | src/features/authentication/adapters/outbound/persistence/sqlmodel/repository.py:919-948 | a purge removes exactly the tokens used or expired before the cutoff, an erasure exactly the user's |
| `AccountRuns.ResetEndsSessions` | src/features/authentication/application/use_cases/auth/confirm_password_reset.py:53-82 | after a reset none of the user's stored refresh tokens rotates in any continuation, the version is raised and the credential replaced |
| `RateLimit.WindowNeverExceeded` | src/features/authentication/application/rate_limit.py:128-149 | over every run no window of any key holds more accepted attempts than the limit |
| `RateLimit.Recent` | src/features/authentication/application/rate_limit.py:128-149 | the loop keeps exactly the stamps still in the window |
| `RateLimit.FixedWindowRateLimiter.Check` | src/features/authentication/application/rate_limit.py:128-149 | decides by the in-window attempts and rewrites the bounded TTL cache accordingly, the entry to live one window and sixty seconds |
| `RateLimit.CacheDecidesLikeLog` | src/features/authentication/application/rate_limit.py:118-149 | as long as no eviction forgets an attempt still in its window, as when no more than maxsize keys are live, the expiring bounded cache decides every run like a log that never forgets |
| `RateLimit.FixedWindowGuarantee` | src/features/authentication/application/rate_limit.py:118-149 | a new limiter accepts the i-th attempt of a run if and only if fewer than the limit of the key's earlier accepted attempts are at most one window old; so no closed window of any key exceeds the limit |
| `RateLimit.EvictsLeastRecentlyChecked` | src/features/authentication/application/rate_limit.py:118-126 | on every run of one clock, a check that has to make room drops a key last checked no later than any other key still cached |
| `RateLimit.EvictionHarmlessIff` | src/features/authentication/application/rate_limit.py:118-149 | after a check that evicts the least recently used key, cache and log still agree from then on if and only if the victim had no attempt left in its window |
| `RateLimit.HarmfulEviction` | src/features/authentication/application/rate_limit.py:118-149 | if the victim had one, some run of the evicting cache has an attempt that the cache accepts and the log refuses |
| `RateLimit.BoundedNext` | src/features/authentication/application/rate_limit.py:118-126 | the cache never outgrows maxsize, so a key that does not fit does evict another |
| `RateLimit.RedisRateLimiter.Check` | src/features/authentication/application/rate_limit.py:48-64 | the script, command by command, equals its specification; an accepted attempt sets the key to expire after window seconds times 1000 ms |
| `RateLimit.RedisDecidesLikeLog` | src/features/authentication/application/rate_limit.py:48-64 | the trimming, expiring script decides every run like the plain log |
| `RateLimit.RedisGuarantee` | src/features/authentication/application/rate_limit.py:231-263 | a new Redis limiter accepts the i-th attempt of a run if and only if fewer than the limit of the key's earlier accepted attempts are less than window seconds times 1000 ms old; so no half-open window exceeds the limit |
| `RateLimit.LimitersAgreeIff` | src/features/authentication/application/rate_limit.py:128-149 | the two limiters, new and with one window and limit, take the same decisions over a run that forgets nothing if and only if no attempt along it finds attempts exactly one window old tipping the balance |
| `RateLimit.LimitersDifferIff` | src/features/authentication/application/rate_limit.py:139-149 | on one log they differ if and only if the attempts exactly one window old make up the difference, and then only the in-process one refuses |
| `AuthzRegistry.AuthorizationRegistry.RegisterResourceType` | src/features/authorization/application/registry.py:71-87 | fails when sealed or taken, else adds the leaf; leaf and inherited types stay disjoint |
| `AuthzRegistry.AuthorizationRegistry.RegisterParent` | src/features/authorization/application/registry.py:89-113 | fails when sealed or taken, else adds the inherited type; the two kinds stay disjoint |
| `AuthzRegistry.AuthorizationRegistry.NearestLeafType` | src/features/authorization/application/registry.py:172-193 | the guarded loop terminates on every registry with the specified resolution |
| `AuthzRegistry.NearestLeafCorrect` | src/features/authorization/application/registry.py:172-193 | resolution finds a leaf if and only if the declared chain reaches one, within as many hops as inherited types; otherwise it tells an unregistered type from a cycle |
| `AuthzRegistry.AuthorizationRegistry.RelationsFor` | src/features/authorization/application/registry.py:121-135 | answers a set of relations if and only if the declared chain reaches a leaf type whose actions map the action to it, and the unknown-action error otherwise |
| `AuthzRegistry.SatisfyingMeaning` | src/features/authorization/application/registry.py:121-135 | the same of the specification, for every registry, cyclic ones included |
| `AuthzRegistry.AuthorizationRegistry.ExpandRelations` | src/features/authorization/application/registry.py:137-154 | the union of the superiors of every relation, or the error when one is not in the hierarchy |
| `AuthzRegistry.ExpandMeaning` | src/features/authorization/application/registry.py:137-154 | on a leaf type it errs exactly when a relation is missing from the hierarchy, and otherwise holds exactly what the hierarchy lists for one of the relations |
| `AuthzRegistry.AuthorizationRegistry.ParentLookup` | src/features/authorization/application/registry.py:163-166 | the registered lookup of the resource's type, called with the resource's id, or none for a type without one |
| `AuthzEngine.CoherentWalkStops` | src/features/authorization/adapters/outbound/sqlmodel/adapter.py:104-108 | if the lookups along its first hops, as many as there are inherited types, are coherent, the walk ends within them, in the declared leaf type or without a parent |
| `AuthzEngine.EndlessWalkIsIncoherent` | src/features/authorization/adapters/outbound/sqlmodel/adapter.py:104-108 | a walk that never ends meets an incoherent lookup within the number of inherited types |
| `AuthzEngine.IncoherentWalkDiverges` | src/features/authorization/adapters/outbound/sqlmodel/adapter.py:104-108 | there is a registry with a known action on which the walk never ends |
| `AuthzEngine.AuthorizationEngine.Check` | src/features/authorization/adapters/outbound/sqlmodel/adapter.py:90-118 | wherever the walk ends, the loop returns the specified verdict: allowed, denied or unknown action |
| `AuthzEngine.CheckMeansPermitted` | src/features/authorization/adapters/outbound/sqlmodel/adapter.py:90-118 | wherever the walk lands, a check errs exactly when the action asks for a relation missing from the hierarchy it landed in, and otherwise is allowed if and only if the inductive permission relation, which climbs by the registered lookups, holds, provided it asks for the relations that leaf type grants |
| `AuthzEngine.CheckAgreesIff` | src/features/authorization/adapters/outbound/sqlmodel/adapter.py:90-118 | that proviso is exact: a check that lands without an error answers the permission relation for all tuples and users if and only if it asks for what the leaf it landed in grants |
| `AuthzEngine.CoherentCheckIsPermitted` | src/features/authorization/adapters/outbound/sqlmodel/adapter.py:90-118 | with coherent lookups and a hierarchy that covers the action: the walk ends within the number of inherited types, the check does not err and it allows exactly what is permitted |
| `AuthzEngine.DistinctIds` | src/features/authorization/adapters/outbound/sqlmodel/adapter.py:149-158 | the loop returns the ids of the chosen rows, strictly increasing |
| `AuthzEngine.LookupIsListing` | src/features/authorization/adapters/outbound/sqlmodel/adapter.py:120-158 | the limited, deduplicated query lists what checks allow |
| `AuthzEngine.MatchingMeaning` | src/features/authorization/adapters/outbound/sqlmodel/adapter.py:120-140 | a lookup errs exactly when the declared chain reaches no leaf that knows the action and covers its relations |
| `AuthzEngine.AuthorizationEngine.LookupResources` | src/features/authorization/adapters/outbound/sqlmodel/adapter.py:120-158 | an increasing initial segment of exactly the leaf ids a check allows, non-empty if there is one, and all of them when the matching tuples fit under the clamped limit |
| `AuthzEngine.UserSubjectIds` | src/features/authorization/adapters/outbound/sqlmodel/adapter.py:54-66 | a user is collected if and only if some tuple has subject type "user" and that user's id, in canonical or any other spelling, as its subject |
| `AuthzEngine.AuthorizationEngine.WriteRelationships` | src/features/authorization/adapters/outbound/sqlmodel/adapter.py:203-243 | the stored set becomes its union with the batch, no tuple twice, no row changed; every existing user named by a subject of the batch, in any spelling, is one version higher, and all others are unchanged |
| `AuthzEngine.AuthorizationEngine.DeleteRelationships` | src/features/authorization/adapters/outbound/sqlmodel/adapter.py:245-278 | the stored set loses exactly the batch; every existing user named by a subject of the batch, in any spelling, is one version higher, and all others are unchanged |
| `AuthzEngine.AuthorizationEngine.BumpAffectedUsers` | src/features/authorization/adapters/outbound/sqlmodel/adapter.py:280-291 | every existing user named by a subject of the batch rises by one version, once, and all others stay |
| `PrincipalCache.InProcessPrincipalCache.Set` | src/features/authentication/application/cache.py:60-64 | writes and indexes the entry; expiry and eviction keep every entry listed under its user |
| `PrincipalCache.InProcessPrincipalCache.InvalidateUser` | src/features/authentication/application/cache.py:70-75 | the loop removes every entry of the user and keeps the index covering the rest |
| `PrincipalCache.CoveredRun` | src/features/authentication/application/cache.py:56-75 | in every run each entry is listed in its user's index |
| `PrincipalCache.InvalidatedUntilNextSet` | src/features/authentication/application/cache.py:70-75 | from every reachable cache, no lookup returns a principal of an invalidated user until the next set for that user |
| `PrincipalCache.LookupAfterSet` | src/features/authentication/application/cache.py:56-64 | after a set the token answers with its principal for the ttl, an evicted one no longer answers, and every other answer is as before |
| `PrincipalCache.LookupAfterPop` | src/features/authentication/application/cache.py:66-68 | a pop ends the answers for its token and for no other |
| `PrincipalCache.InvalidationSparesOthers` | src/features/authentication/application/cache.py:70-75 | from every reachable cache, invalidating a user changes no answer for another user's tokens |
| `PrincipalCacheRedis.InvRun` | src/features/authentication/application/cache.py:131-153 | in every run each live principal key is listed in an index key that outlives it, or held by an invalidation in progress |
| `PrincipalCacheRedis.InvalidationLeaves` | src/features/authentication/application/cache.py:142-153 | an entry still served when an invalidation returns was set after it began, or was held by another one under way |
| `PrincipalCacheRedis.InvalidatedUntilNextSet` | src/features/authentication/application/cache.py:142-153 | whatever runs during and after it, an invalidation leaves nothing of the user to serve until the next set if and only if every live entry of the user was listed when it began |
| `PrincipalCacheRedis.UnlistedIsDoomed` | src/features/authentication/application/cache.py:131-153 | in every reachable state a live entry is unlisted only while another invalidation of its user holds it |
| `PrincipalCacheRedis.OverlappingInvalidation` | src/features/authentication/application/cache.py:142-153 | from every state, an invalidation overlapping another returns with the entry still served |
| `PrincipalCacheRedis.LookupAfterCommand` | src/features/authentication/application/cache.py:125-140 | a set answers for the ttl, a pop ends its token, and neither changes another token's answer |
| `PrincipalCacheRedis.InvalidationSparesOthers` | src/features/authentication/application/cache.py:142-153 | in every reachable state neither half of an invalidation changes the answer for another user's token |
| `PrincipalResolution.ResolvePrincipalFromAccessToken.Execute` | src/features/authentication/application/use_cases/auth/resolve_principal.py:47-75 | a hit answers from the cache unchanged; a miss answers from the row and caches success, so that the next lookup finds it, and a stale token leaves no entry; the index keeps covering the cache |
| `PrincipalResolution.JudgeMeaning` | src/features/authentication/application/use_cases/auth/resolve_principal.py:58-75 | a token is accepted if and only if its user exists, is not erased, is active and has the version of the claims; the principal is the row as it stands; each refusal has its exact cause |
| `PrincipalRuns.ExecuteIsRun` | src/features/authentication/application/use_cases/auth/resolve_principal.py:47-75 | every resolution over the in-process cache is a run of the staleness machine that ends with the same live entries |
| `PrincipalRuns.ExecuteOnServerIsRun` | src/features/authentication/application/use_cases/auth/resolve_principal.py:47-75 | the same for a resolution over the Redis cache |
| `PrincipalStaleness.InvNext` | src/features/authentication/application/use_cases/auth/resolve_principal.py:47-75 | every step keeps versions monotone and every entry and pending read backed by a past moment |
| `PrincipalStaleness.RaisesStrictly` | src/features/users/adapters/outbound/authz_version/sqlmodel.py:25-37 | a user's version rises by exactly one on the raising steps and otherwise stays |
| `PrincipalStaleness.RelateMeaning` | src/features/authorization/adapters/outbound/sqlmodel/adapter.py:280-291 | a relationship change raises exactly the users its tuples name and touches nothing else of their rows |
| `PrincipalStaleness.UserStepMeaning` | src/features/users/adapters/outbound/persistence/sqlmodel/repository.py:117-285 | what a bump, a change of activity, a verification and an erasure write to the user row, an erasure only once |
| `PrincipalStaleness.OtherUsersKept` | src/features/users/adapters/outbound/persistence/sqlmodel/repository.py:85-285 | a step on one user changes no other row, and only a creation adds one |
| `PrincipalStaleness.BoundedStaleness` | src/features/authentication/application/use_cases/auth/resolve_principal.py:47-75 | every principal handed out was the active row, at the token's version, at some moment of the last ttl (plus the read-to-store lag) |
| `PrincipalStaleness.OutlivedIsRefused` | src/features/authentication/application/use_cases/auth/resolve_principal.py:47-75 | a token below its user's version for longer than that is refused |
| `PrincipalStaleness.RevocationTakesHold` | src/features/authorization/adapters/outbound/sqlmodel/adapter.py:203-291 | after a write or delete naming the user, a reset, a change of activity or an erasure, every token issued up to then is refused in every continuation once ttl plus lag has passed |
| `PrincipalStaleness.TupleChangeTakesHold` | src/features/authorization/adapters/outbound/sqlmodel/adapter.py:203-291 | so it is for every batch with a tuple whose subject is the user, in canonical or any other spelling |
| `PrincipalStaleness.RaiseAloneKeepsServing` | src/features/authentication/application/use_cases/auth/resolve_principal.py:54-57 | a token served from the cache before a raise is served right after it |
| `PrincipalStaleness.RefusedAtOnceIff` | src/features/authentication/application/use_cases/auth/confirm_password_reset.py:53-82 | after a raise a token is refused at once and for ever if and only if the cache does not serve it and no request that read the old row is in flight |
| `AuditPages.Page` | src/features/authentication/adapters/outbound/persistence/sqlmodel/repository.py:950-995 | a page is the newest matching rows before the cursor, strictly descending, and all of them when it is not full |
| `AuditPages.WalkDescending` | src/features/authentication/adapters/inbound/http/admin.py:78-93 | however the log changes between pages the whole listing is strictly descending, so no row appears twice |
| `AuditPages.WalkComplete` | src/features/authentication/adapters/inbound/http/admin.py:78-93 | a finished walk lists every row present throughout it that meets the user, event-type and since filters and is older than the first cursor |
| `AuditPages.WalkSound` | src/features/authentication/adapters/outbound/persistence/sqlmodel/repository.py:968-995 | every listed row was in a log a page was read from, and there met the user, event-type and since filters |
| `AuditPages.PageCount` | src/features/authentication/adapters/inbound/http/admin.py:78-93 | on an unchanging log of n matches the walk finishes if and only if it is given n / limit + 1 pages |

## Left out

- `OutboxFairness.NoStarvation`: assumes one worker, as the claim order is only then determined by the table.
- `OutboxBudget.DispatchBound`: is an upper bound, not the largest count, and leaves out crashes, after which a dispatch is not counted in the row at all.
- `PrincipalCache.InProcessPrincipalCache.Set`: which live entry a full cache evicts is left open, since no property depends on it.
- `lookup_subjects`: it queries the given type without order, so it has no duality with `check` to prove.
- Failures of the repository's own row updates appear as worker crashes, not as handled errors.
- Password hashing, JWT and cursor encoding, HTTP routing, cookies, metrics and tracing are not modelled.
- Registration, login credential checks and the erasure pipeline beyond its effect on user and token rows are not modelled.
- Settings loading is not modelled; `Config.Valid` in `OutboxModel.dfy` holds the settings constraints the proofs use.
- Numeric clocks have no rounding: Redis milliseconds and Python floats are both integers here.
