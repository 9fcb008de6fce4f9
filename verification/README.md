# Reliable delivery and shared state: a Dafny model

This project models the stateful core of the backend framework in `src/core`: the transactional outbox, idempotency
records and event dispatch, locks with fencing tokens, the permission projection with its versioned cache, the sliding
window rate limiter, quotas, the cron scheduler, the dependency-ordered planners and nested units of work.

Each component comes in two layers.

* **Objects.** A class per stateful object of the framework, with the fields it updates in place. Every method is
  verified against a specification function of the old state: `OutboxRepository.ClaimBatch` against `Outbox.Batch`,
  `DatabaseLockProvider.AcquireLock` against `Locks.DatabaseCall`, `QuotaMutationGate.ReserveAndRun` against
  `QuotaGate.Ran`, and so on. Loops of the framework are loops here, with invariants.
* **Laws.** Lemmas about the specification functions: invariants over every run of a protocol, refinement between two
  implementations, conservation, round trips, soundness and completeness. The modules named `…Runs` hold the state
  machines whose steps are the atomic repository calls, interleaved in any order.

Conventions. Time is an integer clock in microseconds, given to each call as `now`; nothing says that it is
nondecreasing unless a predicate such as `Timed`, `Nondecreasing` or `OrderedRequests` does. Each SQL statement or
repository call is one atomic step; the modules named `…Races` and `LockRuns` take calls apart that read a row and later
write it without a guard, or that take several statements. Handlers, triggers and effects are parameters that say what the callee returns or
raises. Error codes are the datatype `AppError`, errors and optional values the datatypes `Result` and `Option`.

Some laws of the framework hold only under a condition. For each of them an if-and-only-if says which:

* `diagnose` predicts `claim` unless a record was swept before its expiry and is asked for with another payload
  (`Idempotency.DiagnosePredictsClaimIff`), which takes a clock that went back and does come up then
  (`IdempotencyRuns.SweptEarlyIsReached`), or a sweep that found the record expired and writes after a claim has
  started over: under a clock that does not go back diagnoses are reliable exactly when no sweep overlaps a claim
  (`ClaimRaces.DiagnosisIsReliableIff`);
* marks carry no claim version, so with handlers that take at most d, one success per record lifetime holds over all
  runs exactly when d is shorter than the lock and than the lifetime (`IdempotencyRuns.AtMostOnceIff`); with reads and
  writes of claims and sweeps taken apart it holds exactly when, besides, the claims of a key do not overlap each other
  or a sweep (`ClaimRaces.RacesOnceIff`);
* a published outbox row stays as it is exactly when replays of it do not overlap: each replay writes without a guard
  (`ReplayRaces.PublishedIsFinalIff`);
* a projection leaves all cached permission lookups right exactly when it takes no other party's newest allow row away
  (`PermissionRuns.LookupsStayRightIff`); grants that keep their tenant and subject never do;
* a transaction is bound to serve one tenant exactly when its outermost unit of work names one
  (`UnitsOfWork.TransactionServesOneTenantIff`);
* the database quota store conserves usage over a run exactly when every write-back of a release takes its own: what is
  in the row is taken off the usage that the release read, and what was never committed is not taken off
  (`QuotaRaces.UsageIsConservedIff`). Then callers account for the usage of a key exactly when as much was lost, in the
  row but refused, as was allowed without a commit (`QuotaRaces.CallersAccountForUsageIff`);
* over all interleavings no reservation is lost exactly when all limits of the key that let anything through are the
  same; none is allowed without a commit exactly when nobody releases and the row exists beforehand, or limits of at most
  one leave no room; and callers always account for the usage exactly when both hold (`QuotaAnswers.NothingIsLostIff`,
  `QuotaAnswers.NothingIsPhantomIff`, `QuotaAnswers.AlwaysAccountedIff`);
* with claims of event handlers read and written apart, each handler returns once over all dispatch attempts exactly
  when claims of one handler do not overlap (`EventRaces.AlwaysOnceIff`);
* the two lock providers agree on all calls at given clock readings exactly when the clock does not go back after the
  first of them (`Locks.AgreeIff`);
* a rate limit rule has a key for an identity exactly when each of its dimensions has a value without ':', which an
  IPv6 address is not (`RateLimitKeys.KeyExistsIff`), and the same holds of the subjects of quotas
  (`QuotaGate.KeyExistsIff`).

The limiter's bound of `limit + floor(limit * elapsed / window)` is tight: runs reach it for every rule and every
elapsed time but the last tick of a bucket, wherever it exceeds the limit (`RateLimit.BoundIsReached`).

`dafny verify dfyconfig.toml` checks the whole project.

| file | content |
|---|---|
| `Common.dfy`, `Arithmetic.dfy`, `SortedStrings.dfy`, `Keys.dfy` | shared values, quotients, sorted sets of strings, key spelling |
| `Outbox.dfy`, `OutboxRuns.dfy`, `ReplayRaces.dfy`, `Dispatcher.dfy` | the leased outbox, its runs, replays that overlap, the dispatch loop |
| `Idempotency.dfy`, `IdempotencyRuns.dfy`, `ClaimRaces.dfy` | idempotency records, the mutation guard, concurrent runs on one key, claims and sweeps that overlap |
| `EventSchemas.dfy`, `Events.dfy`, `EventRuns.dfy`, `EventRaces.dfy`, `SideEffectRuns.dfy` | payload validation, event dispatch and side effects, dispatch under the outbox, claims of handlers that overlap, effects over whole histories |
| `Locks.dfy`, `LockRuns.dfy` | the two lock providers and their equivalence, the read-then-write lock under interleaving |
| `MemoryCache.dfy`, `RateLimit.dfy`, `RateLimitKeys.dfy` | the in-memory cache, the limiter on top of it, how its counters are named |
| `Policies.dfy`, `PermissionCache.dfy`, `Permissions.dfy`, `PermissionRuns.dfy` | policy rules and reconciliation, the versioned cache, backends and projector, call histories |
| `QuotaUsage.dfy`, `QuotaGate.dfy`, `QuotaRaces.dfy`, `QuotaAnswers.dfy` | the two usage stores, the quota service and the mutation gate, reservations and releases statement by statement, which answers can be trusted |
| `Scheduler.dfy` | due slots, misfire policies, scheduler iterations |
| `DepthFirst.dfy`, `Migrations.dfy`, `AppDependencies.dfy` | the search with cycle reports and its two users |
| `UnitsOfWork.dfy` | nested transaction scopes |

## Model

| member | source | states |
|---|---|---|
| Outbox.OutboxRepository.Add | src/core/outbox/repository.py:24-47 | validates the payload, with or without a registry; a valid event becomes a pending, unclaimed row under a fresh id, a refused one changes nothing |
| EventSchemas.RegistryIsStricter | src/core/events/registry.py:141-173 | an event is acceptable to the registry exactly when it passes the check without one, is registered, and has the required fields and field types |
| EventSchemas.FirstFault | src/core/events/registry.py:141-173 | which fault is raised: the first of an unknown event, a missing field, a foreign tenant, a field of another type |
| EventSchemas.TypeAccepts | src/core/events/registry.py:334-349 | a field type accepts the values of that Python type alone, but for `number`, which accepts integers and floats; booleans are no integers |
| Outbox.OutboxRepository.TryClaimEvent | src/core/outbox/repository.py:178-200 | one conditional update: the row gets the lease and the next claim version exactly when it is due, that is pending or failed with no retry time and no lock ahead, or publishing with its lease over; any other row stays |
| Outbox.OutboxRepository.ClaimEach | src/core/outbox/repository.py:65-71 | the loop over candidate ids leaves the table and the events that `ClaimFirst` gives |
| Outbox.OutboxRepository.ClaimBatch | src/core/outbox/repository.py:49-71 | the table and the events after a batch claim are those of `Batch` |
| Outbox.BatchExact | src/core/outbox/repository.py:49-71 | a batch claims the first `limit` due rows in creation order, all of them if there are fewer, each once; each gets the lease and the next claim version and is otherwise as before, the events handed out are these rows, and every other row stays |
| Outbox.ClaimFirstExact | src/core/outbox/repository.py:178-200 | claiming a list of eligible rows claims each exactly once, in order |
| Outbox.OutboxRepository.ConditionedDispatchUpdate | src/core/outbox/repository.py:251-286 | the update goes through exactly when status, dispatcher, claim version and lease still match; else the row stays and the caller gets a conflict |
| Outbox.OutboxRepository.MarkPublished | src/core/outbox/repository.py:73-93 | a held lease ends in `published`; a lost one changes nothing |
| Outbox.OutboxRepository.MarkFailed | src/core/outbox/repository.py:95-135 | a held lease ends in `failed` with a retry time or in `dead_letter`, with the attempt counted |
| Outbox.OutboxRepository.ReplayDeadLetterById | src/core/outbox/replay.py:43-55 | only a dead letter is made pending again; other rows are refused or not found |
| Outbox.PublishedColumns | src/core/outbox/repository.py:73-93 | a published row has its time, no error and no lease, keeps its history, and is never due again |
| Outbox.FailedColumns | src/core/outbox/repository.py:95-135 | a failed row counts the attempt and names the error; it is due again from now + delay on, exactly while the error is transient and attempts are left, and otherwise a dead letter with that reason |
| Outbox.ReplayedColumns | src/core/outbox/repository.py:137-146 | a replayed row is due at any time, without error or lease, and keeps its attempts |
| OutboxRuns.NextInv | src/core/outbox/repository.py:178-210 | every atomic step of any dispatcher keeps the invariant on lease, snapshots, versions and attempts |
| OutboxRuns.ReachableInv | src/core/outbox/repository.py:251-286 | the invariant holds after every interleaving |
| OutboxRuns.ClaimTakesEffectIff | src/core/outbox/repository.py:178-210 | a claim changes the row exactly when it is pending or failed with no retry time and no lock ahead, or publishing with its lease over; then the claimant holds it as it is |
| OutboxRuns.RetriedWhenDue | src/core/outbox/repository.py:95-135 | after a failed mark with attempts left, whatever happens in between, no claim before now + delay takes the row and the first one from then on does |
| OutboxRuns.ReplayedIsDueAtOnce | src/core/outbox/repository.py:137-146 | a replayed dead letter can be claimed at any clock reading |
| OutboxRuns.PublishingMeansLocked | src/core/outbox/repository.py:178-210 | a row is `publishing` exactly while `locked_by` and `locked_until` are set |
| OutboxRuns.EachClaimCompletesAtMostOnce | src/core/outbox/repository.py:251-286 | completed claim versions strictly increase, and completions never exceed `claim_version` |
| OutboxRuns.CompletionsBounded | src/core/outbox/repository.py:251-286 | failed plus published marks are bounded by the highest claim version |
| OutboxRuns.CompletionTakesEffectIff | src/core/outbox/repository.py:251-286 | in every reachable state a completion changes the row exactly when its claim is live; superseded, completed, expired and foreign claims change nothing |
| OutboxRuns.CompletionRefreshes | src/core/outbox/repository.py:251-286 | whoever completes or reads the row then holds it as it is, whether the completion took effect or not; nobody else's event object changes |
| OutboxRuns.PublishedIsTerminal | src/core/outbox/repository.py:202-210 | no later run changes a published row |
| OutboxRuns.LeaseExcludes | src/core/outbox/repository.py:202-210 | a leased row can be claimed exactly from the end of its lease on |
| OutboxRuns.NoFailureLost | src/core/outbox/repository.py:95-135 | `attempt_count` is the number of failed marks; a current claimant's snapshot agrees with the row |
| OutboxRuns.AttemptsNeverExceedMax | src/core/outbox/repository.py:95-135 | without replay attempts never exceed `max_attempts`, and transient failures kill the row at exactly that many |
| OutboxRuns.ReplayAllowance | src/core/outbox/repository.py:137-146 | each replay allows exactly max(1, max_attempts - attempt_count) more transient failures |
| ReplayRaces.PublishedIsFinalIff | src/core/outbox/repository.py:137-146 | with at most k replays between their read and their write, no run changes a published row, exactly when k is at most 1 |
| ReplayRaces.SerialReplaysAreAtomic | src/core/outbox/replay.py:43-55 | replays that do not overlap run as if each read and wrote in one step |
| ReplayRaces.ReplayWrites | src/core/outbox/repository.py:137-146 | a replay writes what it read and clears: it puts the row back to pending, and leaves what was empty when it read as the row has it by now |
| ReplayRaces.SecondReplayUnpublishes | src/core/outbox/repository.py:137-146 | of two replays that read one dead letter, the later one puts the row back to pending after it was published |
| OutboxRuns.RoomForFailures | src/core/outbox/repository.py:95-146 | the room left after a replay, over every continuation |
| Dispatcher.OutboxDispatcher.Complete | src/core/outbox/dispatcher.py:86-108 | one handled event is marked published or failed, or its lost lease is reported |
| Dispatcher.OutboxDispatcher.Settle | src/core/outbox/dispatcher.py:82-116 | the loop over claimed events leaves the table and the counters of `SettleFirst` |
| Dispatcher.OutboxDispatcher.DispatchClaimed | src/core/outbox/dispatcher.py:74-116 | claiming a batch and settling it, end to end |
| Dispatcher.CountsAddUp | src/core/outbox/dispatcher.py:82-116 | each settled event is counted once, as published or failed; dead letters are among the failed |
| Dispatcher.CountsAreOutcomes | src/core/outbox/dispatcher.py:82-116 | without a late completion, published counts the events handled without an error, failed all others, dead letters those with a permanent error or no attempt left |
| Dispatcher.OthersUntouched | src/core/outbox/dispatcher.py:82-116 | rows of events whose turn has not come are unchanged |
| Dispatcher.RaisesIffLate | src/core/outbox/dispatcher.py:82-116 | the loop raises exactly when a completion comes at or after the end of the lease |
| Dispatcher.SettlesInTime | src/core/outbox/dispatcher.py:82-116 | while in time, each row is published or failed by its own event's outcome, with its own attempt count and time |
| Dispatcher.StopsAtFirstLate | src/core/outbox/dispatcher.py:82-116 | the first late completion ends the loop; its row and all later ones keep their leases |
| Dispatcher.BatchIsFreshlyClaimed | src/core/outbox/dispatcher.py:74-82 | a batch meets what the loop needs: distinct events that agree with rows leased to the dispatcher |
| Idempotency.IdempotencyStore.InsertProcessingRecord | src/core/idempotency/store.py:203-231 | inserts a processing record for a key that has none |
| Idempotency.IdempotencyStore.RestartProcessing | src/core/idempotency/store.py:298-314 | an existing record starts over with new hash, lock and expiry |
| Idempotency.IdempotencyStore.HandleExisting | src/core/idempotency/store.py:251-296 | what a claim makes of an existing record: restart, replay, or the error |
| Idempotency.IdempotencyStore.ClaimKey | src/core/idempotency/store.py:44-91 | a claim is refused exactly when a part of its scope or its hash is blank; else it decides as `Claim` does, touching only its own key |
| Idempotency.IdempotencyStore.MarkSucceeded | src/core/idempotency/store.py:93-108 | the record becomes a success with its response and without a lock |
| Idempotency.IdempotencyStore.MarkFailed | src/core/idempotency/store.py:110-121 | the record becomes a failure with its response and without a lock |
| Idempotency.IdempotencyStore.ExpireBefore | src/core/idempotency/store.py:123-136 | exactly the records past their expiry become expired, with their number |
| Idempotency.IdempotencyStore.DiagnoseKey | src/core/idempotency/store.py:138-201 | the diagnosis of a key, without a change |
| Idempotency.DiagnosePredictsClaimIff | src/core/idempotency/store.py:138-201 | the diagnosis announces the claim's outcome in all cases but one, which is named |
| Idempotency.DiagnosisNames | src/core/idempotency/store.py:138-201 | what each diagnosis says about the record: none, over, or its status, and for a failure whether it may be retried |
| Idempotency.RetryAfterIsWhole | src/core/idempotency/store.py:373-376 | the announced wait is the greatest whole number of seconds that does not go past the end of the lock |
| Idempotency.IdempotencyMutationGuard.Run | src/core/idempotency/guard.py:37-108 | claim, handler and mark in one call: a started run gives back and records what the handler returned, a replay gives back what is recorded, a failure is recorded and its error passed on |
| IdempotencyRuns.RunShape | src/core/idempotency/store.py:57-121 | `processing` holds exactly while a lock is set, under any interleaving |
| IdempotencyRuns.StepsKeepTime | src/core/idempotency/store.py:93-136 | every step moves the clock to its reading; a run that ends is not active any more and changes no other run; a crash leaves the record |
| IdempotencyRuns.DiagnosisIsReliable | src/core/idempotency/store.py:138-201 | after any run under a nondecreasing clock the diagnosis determines whether a claim starts, replays or which error it raises |
| IdempotencyRuns.NextInv | src/core/idempotency/store.py:251-314 | the invariant on owners, successes and lifetimes is kept by every step |
| IdempotencyRuns.OneRunAtATime | src/core/idempotency/guard.py:54-108 | of the runs that are inside their lock and lifetime there is at most one, and the record is its own |
| IdempotencyRuns.OneSuccessPerLifetime | src/core/idempotency/guard.py:54-108 | when outcomes are marked inside the lock and the lifetime, at most one run records success per record lifetime |
| IdempotencyRuns.SuccessIsReplayed | src/core/idempotency/store.py:251-296 | until it expires, a success is replayed to its payload with the code, body and ids that its run returned, and refused to others, without a handler call |
| IdempotencyRuns.ReturnsAreRecorded | src/core/idempotency/store.py:93-108 | every return of an active run is recorded as a success with exactly the code, body and ids that it returned |
| IdempotencyRuns.FailureIsKept | src/core/idempotency/store.py:110-121 | a raised error is recorded with its name and body; until the record expires, the payload starts over only with the opt-in to retry failures, and other payloads are refused |
| IdempotencyRuns.LateHandlerSucceedsTwice | src/core/idempotency/store.py:93-121 | for any lock and lifetime, handlers that may take as long as the shorter of the two let two runs record success in one lifetime |
| IdempotencyRuns.AtMostOnceIff | src/core/idempotency/store.py:44-121 | with handlers that take at most d, one success per lifetime holds over all runs exactly when d is shorter than the lock and the lifetime |
| ClaimRaces.ReadThenDecideIsClaim | src/core/idempotency/store.py:44-91 | an insert or a read followed at once by the decision is the atomic claim |
| ClaimRaces.FindThenWriteIsSweep | src/core/idempotency/store.py:123-136 | finding expired records followed at once by the write is the atomic sweep |
| ClaimRaces.FlushWrites | src/core/idempotency/store.py:298-314 | a write sends the columns that it changes from what was read, and leaves the others as they are by then |
| ClaimRaces.BothStartIff | src/core/idempotency/store.py:251-293 | two claims that see one state both start exactly when there is a record and it lets each of them start over |
| ClaimRaces.NextRaceInv | src/core/idempotency/store.py:251-314 | with one claim in flight and sweeps apart, every step keeps the invariant on owners, successes and pending claims |
| ClaimRaces.RacesOnceIff | src/core/idempotency/store.py:44-136 | with claims and sweeps read and written apart, one success per lifetime holds over all runs exactly when handlers are faster than the lock and the lifetime, claims do not overlap, and no sweep overlaps a claim |
| ClaimRaces.TwoRetriesSucceedTwice | src/core/idempotency/store.py:280-314 | two retries that read one failed record can both record success in one lifetime, however fast the handlers |
| ClaimRaces.SweepOverClaimSucceedsTwice | src/core/idempotency/store.py:123-136 | a sweep that writes after a claim has started over lets the next claim start as well, and both record success |
| ClaimRaces.DiagnosisIsReliableIff | src/core/idempotency/store.py:138-203 | over all interleavings under a clock that does not go back, with any overlap of claims and any late marks, diagnoses tell what claims do exactly when no sweep overlaps a claim |
| IdempotencyRuns.SweptEarlyIsReached | src/core/idempotency/store.py:123-201 | after any sweep, a claim at an earlier reading with another payload is diagnosed reusable and refused |
| Events.EventRegistry.Register | src/core/events/registry.py:93-113 | appends a validated handler to its event type; a second registration of one handler is refused |
| Events.EventRegistry.CallHandler | src/core/events/registry.py:215-249 | one handler under its idempotency record, with the keyed effects that it runs in between |
| Events.EventRegistry.RunEffects | src/core/events/registry.py:224-232 | the effects a handler runs in its side-effect context, one after the other |
| Events.EffectsLeaveHandlers | src/core/events/side_effects.py:116-124 | no effect touches the record of a handler |
| Events.EventRegistry.CallHandlers | src/core/events/registry.py:209-249 | the handler loop leaves the records, the result and the calls of `DispatchFirst` |
| Events.EventRegistry.Dispatch | src/core/events/registry.py:191-249 | validation, look-up and the handler loop; an event without a handler is an error |
| Events.HandlerScopesDistinct | src/core/events/registry.py:395-397 | different handlers of an event never share a record |
| Events.ActorIsSpelled | src/core/events/registry.py:216-216 | the actor of a record is the payload's, spelled out, or `__system__` when it is missing or counts as false |
| Events.ScopeColumns | src/core/events/registry.py:213-218 | a handler's and an effect's record is stored under the event's tenant, its actor, its id, and a route of type, version, handler and effect |
| Events.HandlerScopesIdentify | src/core/events/registry.py:213-218 | records of handlers of any two events are one only for one tenant, actor and event and, within a type and version, one handler |
| Events.HandlerHashInjective | src/core/events/registry.py:399-407 | two handler requests have one hash exactly when event, type, version and handler are the same |
| Events.SideEffectScopesDistinct | src/core/events/side_effects.py:116-124 | an effect never shares a record with a handler, nor, where handler keys hold no ':', with another effect |
| Events.SideEffectScopesIdentify | src/core/events/side_effects.py:116-124 | records of effects of any two events are one only for one tenant, actor and event, and never a handler's |
| Events.SideEffectHashInjective | src/core/events/side_effects.py:127-143 | requests with one hash are for the same handler, effect and payload |
| Events.SharedScopeIsRefused | src/core/events/side_effects.py:75-87 | where two requests do share a record, the second is refused, never answered with the first one's body |
| Events.GuardedCallFacts | src/core/events/side_effects.py:74-113 | a guarded call ends without error exactly when its success is then on record; a live success is replayed |
| Events.DispatchInOrder | src/core/events/registry.py:209-249 | handlers are called in registration order, each at most once per attempt |
| Events.DispatchKeepsOthers | src/core/events/registry.py:209-249 | a handler that is not called keeps its record; one whose success is on record is not called |
| Events.DispatchStaysInEvent | src/core/events/registry.py:191-249 | a dispatch leaves the records of all other events alone, handlers' and effects' alike |
| Events.NewEventIsHandled | src/core/events/registry.py:191-249 | after any dispatches of other events, an event that was never dispatched has no record and its first handler is called |
| Events.DispatchOkMeansAll | src/core/events/registry.py:209-249 | an attempt without error leaves every handler's success on record |
| Events.DispatchStopsAtFirstFailure | src/core/events/registry.py:209-249 | an attempt that raises, from a claim or from a handler, stops at one handler: all before it succeeded, all after it are untouched, and the error is its own |
| Events.RunGuarded | src/core/events/side_effects.py:74-113 | claim, call and mark on one key equal `GuardedCall` |
| Events.SideEffectRunner.RunEventSideEffect | src/core/events/side_effects.py:53-113 | a keyed effect inside a handler: refused outside one; a started one is recorded and gives its own body, a replayed one the recorded body |
| EventRuns.NextInv | src/core/outbox/dispatcher.py:82-108 | the joint invariant of outbox row, attempts and handler records is kept by every step |
| EventRuns.OutboxPart | src/core/outbox/dispatcher.py:74-108 | the event's row moves by claims of attempts not under way, published marks of finished ones, failed marks of aborted ones and replays, and by nothing else |
| EventRuns.AttemptPart | src/core/outbox/dispatcher.py:74-108 | an attempt begins with a claim that takes effect and is over with its mark or a crash; nobody else's attempt changes |
| EventRuns.RecordPart | src/core/events/registry.py:209-249 | a step changes at most the record of the handler its attempt has come to, and a sweep exactly the records past their lifetime; only a return counts one |
| EventRuns.EachHandlerReturnsAtMostOnce | src/core/events/registry.py:203-249 | over all dispatch attempts of any dispatchers, each handler returns normally at most once |
| EventRuns.PublishedMeansEveryHandlerRanOnce | src/core/outbox/dispatcher.py:82-108 | a published event has had every handler return exactly once |
| EventRuns.CallsFollowRegistrationOrder | src/core/events/registry.py:203-249 | every attempt calls handlers in order, each after all its predecessors returned, and no two attempts call one at once |
| EventRaces.ReadThenDecideIsStart | src/core/events/registry.py:209-249 | an insert or a read followed at once by its decision is the claim of the attempt |
| EventRaces.ClockFollows | src/core/events/registry.py:209-249 | every step of every attempt moves the clock to its own reading |
| EventRaces.NextInv | src/core/idempotency/store.py:251-314 | with one claim of a handler under way, every step of any attempt keeps the joint invariant and the claims that are under way |
| EventRaces.TwoRetriesReturnTwice | src/core/idempotency/store.py:280-314 | two attempts that read one failed record both have the handler return, and the event is published |
| EventRaces.AlwaysOnceIff | src/core/events/registry.py:191-249 | with at most k claims of a handler under way, over all attempts each handler returns at most once, and exactly once if the event is published, exactly when k is at most 1 |
| EventRuns.TurnIsHandlerCall | src/core/events/registry.py:209-249 | starting and ending a handler without interruption is one step of the registry loop |
| EventRuns.AttemptIsDispatch | src/core/events/registry.py:191-249 | an attempt without interruption is the dispatch: same records, same calls, finished or aborted as it ends |
| SideEffectRuns.KeyRunsAlone | src/core/idempotency/store.py:44-136 | in any interleaving over the table each scope key runs as if alone |
| SideEffectRuns.HandlersLeaveEffectsAlone | src/core/events/side_effects.py:116-124 | claiming, failing or finishing a handler does not touch its effects' records |
| SideEffectRuns.EffectCompletesOnce | src/core/events/side_effects.py:74-113 | an effect completes at most once per event, handler and key, however often the handler fails and is retried |
| SideEffectRuns.LaterCallsReplay | src/core/events/side_effects.py:88-92 | after completion a call with the same payload replays the body that the one completion returned; another payload is refused |
| Locks.MemoryLockProvider.PurgeIfExpired | src/core/locks/memory.py:118-121 | drops an expired entry and nothing else |
| Locks.MemoryLockProvider.AcquireLock | src/core/locks/memory.py:25-59 | the call leaves the state and gives the handle of `MemoryCall` |
| Locks.MemoryLockProvider.ReleaseLock | src/core/locks/memory.py:82-90 | as above, for release |
| Locks.MemoryLockProvider.ExtendLock | src/core/locks/memory.py:92-111 | as above, for extend |
| Locks.MemoryLockProvider.IsLocked | src/core/locks/memory.py:113-116 | as above, for locked |
| Locks.DatabaseLockProvider.AcquireLock | src/core/locks/database.py:26-62 | read, then insert or conditional update: the rows and the handle of `DatabaseCall` |
| Locks.DatabaseLockProvider.ReleaseLock | src/core/locks/database.py:85-108 | as above, for release, which keeps the row |
| Locks.DatabaseLockProvider.ExtendLock | src/core/locks/database.py:110-146 | as above, for extend |
| Locks.DatabaseLockProvider.IsLocked | src/core/locks/database.py:148-152 | as above, for locked |
| Locks.CallsAgree | src/core/locks/database.py:85-215 | from related states both providers give one call the same reply and stay related |
| Locks.RefusedIff | src/core/locks/memory.py:129-152 | both providers refuse a call, changing nothing, exactly when key or owner is blank or the time to live is not positive |
| Locks.AcquireGrants | src/core/locks/database.py:154-215 | a free key is locked for the time to live under the next token, and then can be released or extended by its owner up to its expiry and no longer; a held one stays, and its expiry and token are reported |
| Locks.HolderDecides | src/core/locks/database.py:85-146 | an extension by the holder moves the expiry, its release ends the lock at once, and neither does anything for others |
| Locks.ProvidersAgree | src/core/locks/memory.py:25-121 | over every call sequence under a nondecreasing clock both give the same flags, expiries and fencing tokens |
| Locks.AgreeIff | src/core/locks/memory.py:25-121 | fresh providers answer every list of calls at given clock readings alike exactly when the readings do not go back from the second on |
| Locks.ClockGoingBackTellsThemApart | src/core/locks/database.py:85-108 | after any acquire and release the providers answer differently exactly when the clock reads earlier than the release |
| LockRuns.NextInv | src/core/locks/database.py:154-215 | the row carries the newest grant, and each earlier grant was over when the next began |
| LockRuns.FencingTokensIncrease | src/core/locks/database.py:154-215 | with reads and writes interleaved among any processes, grants carry the tokens 1, 2, 3, … |
| LockRuns.HoldsDoNotOverlap | src/core/locks/database.py:183-213 | a grant starts no earlier than the end of the hold it replaces |
| LockRuns.WriteWinsIff | src/core/locks/database.py:154-215 | a write wins exactly on the first insert or on a row expired at the caller's captured time |
| LockRuns.ReadDecides | src/core/locks/database.py:154-176 | a read of a held lock ends the call; otherwise the process goes on with what it read and the clock from before the read |
| LockRuns.LostInsertRetriesOnce | src/core/locks/database.py:26-62 | whose insert lost reads once more, and then waits on nothing: it finds the lock held, has a row to update, or gives up |
| LockRuns.OneWinnerPerExpiry | src/core/locks/database.py:183-213 | of processes that read one state, one wins |
| LockRuns.OthersCannotTouch | src/core/locks/database.py:85-146 | release and extend under another owner token change nothing; no one moves token or owner but an acquire |
| LockRuns.StaleHolderIsFenced | src/core/locks/database.py:154-215 | whoever was replaced holds a token below the one in the row, and below the highest one that a later holder has shown |
| LockRuns.ReadThenWriteIsAcquire | src/core/locks/database.py:154-215 | a read directly followed by its write is the acquire of the provider, row and handle |
| LockRuns.StatementsAreCalls | src/core/locks/database.py:85-146 | the release and extend steps are the calls of the provider |
| MemoryCache.MemoryCacheProvider.Get | src/core/cache/memory.py:24-32 | gives the live value and drops an expired one |
| MemoryCache.MemoryCacheProvider.Set | src/core/cache/memory.py:34-44 | stores under a time to live or permanently, never both |
| MemoryCache.MemoryCacheProvider.Delete | src/core/cache/memory.py:46-49 | removes the entry and says whether a live one was there |
| MemoryCache.MemoryCacheProvider.Incr | src/core/cache/memory.py:54-78 | starts a missing counter, keeps the expiry of a live one, refuses a non-integer |
| MemoryCache.MemoryCacheProvider.Expire | src/core/cache/memory.py:80-88 | moves the expiry of a live entry only |
| MemoryCache.EntryLives | src/core/cache/memory.py:112-132 | an entry needs a positive time to live or none at all, and is read up to the moment that ends |
| RateLimit.SlidingWindowRateLimiter.CheckLimit | src/core/rate_limit/provider.py:178-224 | one check over the cache equals `Check`, with fail-closed and fail-open answers when the cache raises |
| RateLimit.BucketKeyInjective | src/core/rate_limit/provider.py:191-199 | no two buckets and no two keys share a counter |
| RateLimitKeys.KeyExistsIff | src/core/rate_limit/rules.py:19-73 | a valid rule has a key for an identity exactly when each of its dimensions has a value that is not blank and holds no ':' |
| RateLimitKeys.KeyIdentifies | src/core/rate_limit/rules.py:68-73 | two identities have one key exactly when the rules have one name and the same dimensions and the identities agree in each of them |
| RateLimitKeys.CountersIdentify | src/core/rate_limit/provider.py:191-199 | no counter serves two buckets, two rules of different name or dimensions, or two identities that a rule tells apart |
| RateLimit.CheckSeesWholeHistory | src/core/rate_limit/provider.py:191-224 | no counter is lost while it is still read as the previous bucket: a check decides on everything asked in two buckets |
| RateLimit.CheckCounts | src/core/rate_limit/provider.py:191-204 | a check adds its amount to the current bucket's counter, which lives two windows from the check that started it, and touches nothing else but an expired previous one |
| RateLimit.CheckRefusedIff | src/core/rate_limit/provider.py:178-190 | a check raises exactly for an amount that is not positive or an invalid rule, and then counts nothing |
| RateLimit.UnreadableCounterDecides | src/core/rate_limit/provider.py:111-131 | a counter that holds no number fails the check, closed for a whole window or open with the whole limit, and nothing is counted |
| RateLimit.DecisionReports | src/core/rate_limit/provider.py:206-223 | a decision gives the demand it counted and what it leaves of the limit |
| RateLimit.WeightedIsLeast | src/core/rate_limit/provider.py:193-208 | the weight of the previous bucket is the least whole number not under the share of it that lies in the window |
| RateLimit.RetryReachesNextBucket | src/core/rate_limit/provider.py:206-223 | a refused check's wait is the least positive whole number of seconds that reaches the next bucket |
| RateLimit.OthersKeepCounters | src/core/rate_limit/provider.py:191-224 | a check for another identity, under whatever rule, leaves the counters of this one alone |
| RateLimit.RunIsFaithful | src/core/rate_limit/provider.py:178-224 | in every run over a cache shared with any other identities and rules, each check decides on the true history of its identity |
| RateLimit.BucketWithinLimit | src/core/rate_limit/provider.py:203-216 | no bucket lets through more than the limit |
| RateLimit.WindowSpansTwoBuckets | src/core/rate_limit/provider.py:191-199 | what is allowed within a window was allowed in two adjacent buckets |
| RateLimit.TwoBucketBound | src/core/rate_limit/provider.py:203-216 | the ceiling of the weighted previous bucket leaves at most limit + floor(limit * elapsed / window) |
| RateLimit.WindowBound | src/core/rate_limit/provider.py:178-224 | in any interval of one window length the allowed amounts total at most limit + floor(limit * elapsed / window), under twice the limit |
| RateLimit.LimiterBound | src/core/rate_limit/provider.py:178-224 | the same for real runs against the expiring cache, shared with any other identities and rules |
| RateLimit.BoundIsReached | src/core/rate_limit/provider.py:178-224 | for every rule, bucket and elapsed time but the last tick, where something beyond the limit is left, a run against a fresh cache reaches the bound |
| Policies.RulesDistinctIff | src/core/permissions/policies.py:61-79 | a grant's rules have distinct keys exactly when its template lists no permission twice |
| Policies.ExpectedExact | src/core/permissions/projector.py:126-140 | a rule is expected exactly when a grant with an existing template lists its permission |
| Policies.ExpectedUnique | src/core/permissions/projector.py:142-142 | expected rules with one key are one rule |
| Policies.ProjectedKeepsUnique | src/core/permissions/projector.py:77-98 | a projection keeps the unique constraint |
| Policies.ByKey | src/core/permissions/projector.py:142-143 | the dictionary holds exactly the given rules under their keys |
| Policies.CompareExpected | src/core/permissions/projector.py:148-157 | the loop finds exactly the expected rules without an equal row, and the rows that differ from them |
| Policies.CompareActual | src/core/permissions/projector.py:159-163 | the loop finds exactly the rows whose key is not expected |
| Policies.Compare | src/core/permissions/projector.py:142-163 | missing is expected minus stored, stale is stored minus expected |
| Policies.RepairReachesExpected | src/core/permissions/projector.py:165-176 | after a repair from any table the rows are exactly the expected rules, and a second reconciliation finds nothing |
| Policies.RepairEqualsRebuild | src/core/permissions/projector.py:77-177 | a repair and projecting all grants into an empty table give the same table; the latter goes through exactly when every grant can be projected |
| PermissionCache.DictRoundTrip | src/core/permissions/backends.py:52-89 | a match written to the cache is read back unchanged |
| PermissionCache.KeyIsCacheKey | src/core/permissions/cache.py:144-173 | every version and decision key is a valid cache key |
| PermissionCache.KeysNeverCollide | src/core/permissions/cache.py:144-173 | decision keys and version keys, of any tenants, subjects, resources and actions, never collide |
| PermissionCache.MarkerIsRead | src/core/permissions/cache.py:125-142 | the marker read is the three current counters |
| PermissionCache.InvalidationMoves | src/core/permissions/cache.py:57-79 | an invalidation moves one counter up by one and nothing else, so markers never recur |
| PermissionCache.InvalidationConcerns | src/core/permissions/cache.py:57-79 | an invalidation concerns everyone, a tenant or one party; a subject without its tenant and blank parts are refused |
| PermissionCache.SetThenGet | src/core/permissions/cache.py:81-123 | a match with all its parts and a positive time to live is read back until that ends, no other is stored |
| PermissionCache.InvalidatedIsNotRead | src/core/permissions/cache.py:57-123 | after an invalidation that concerns its party a stored match is not read any more, after any other one it is |
| Permissions.BackendsAgree | src/core/permissions/backends.py:107-157 | the projected and the Casbin-equivalent backend both answer None, or both at the same policy version |
| Permissions.AnswerNamesRow | src/core/permissions/backends.py:107-157 | a match names an allow row of the table for the query, of the newest version |
| Permissions.DistributedPermissionCache.Create | src/core/permissions/cache.py:39-52 | a cache needs a positive time to live |
| Permissions.DistributedPermissionCache.Version | src/core/permissions/cache.py:132-142 | a missing counter is zero, a non-integer one a conflict |
| Permissions.DistributedPermissionCache.VersionMarker | src/core/permissions/cache.py:125-130 | the three counters, up to the first one that cannot be read |
| Permissions.DistributedPermissionCache.Invalidate | src/core/permissions/cache.py:57-79 | increments the subject's, the tenant's or the global counter, or is refused |
| Permissions.DistributedPermissionCache.GetAllowingMatch | src/core/permissions/cache.py:81-107 | gives a cached match under the current marker, else None |
| Permissions.DistributedPermissionCache.SetAllowingMatch | src/core/permissions/cache.py:109-123 | stores the match with the current marker for the time to live |
| Permissions.ProjectedPolicyBackend.FindAllowingPolicy | src/core/permissions/backends.py:107-128 | None when no row allows the query, else a row of the newest policy version |
| Permissions.CasbinEquivalentPolicyBackend.FindAllowingPolicy | src/core/permissions/backends.py:137-157 | the first of the newest allowing rules |
| Permissions.CachedPolicyDecisionBackend.FindAllowingPolicy | src/core/permissions/backends.py:170-194 | the cache first, then the backend, whose match is cached |
| Permissions.PolicyProjector.Project | src/core/permissions/projector.py:77-98 | a grant's old rows are replaced by its rules and its party invalidated; on an error the table is rolled back |
| Permissions.ProjectExact | src/core/permissions/projector.py:77-98 | a projection leaves the other grants' rows and, column by column, one allow row per permission of the template; on an error the table stays |
| Permissions.ProjectOkIff | src/core/permissions/projector.py:77-98 | it goes through exactly when the permissions are registered and listed once and the party's counter can be moved |
| Permissions.ProjectionAllows | src/core/permissions/policies.py:61-79 | afterwards the grant's rows allow its party exactly the resources and actions that the template lists, and nobody else anything |
| Permissions.ProjectEachRebuilds | src/core/permissions/projector.py:77-98 | projecting all grants into an empty table gives exactly the rows that they stand for |
| Permissions.PolicyProjector.InvalidateSubjects | src/core/permissions/projector.py:179-184 | bumps the counter of every listed party, or the global one when there is none |
| Permissions.PolicyProjector.Remove | src/core/permissions/projector.py:100-123 | removes a grant's rows and invalidates everyone they were for, and the named party |
| Permissions.RemoveExact | src/core/permissions/projector.py:100-123 | a removal takes exactly the grant's rows away, or none when it raises |
| Permissions.RemovedPartiesExact | src/core/permissions/projector.py:100-123 | a removal invalidates the parties of the rows it takes away and, given in full, the one the caller names |
| Permissions.RemovalOfNothingMovesGlobal | src/core/permissions/projector.py:179-184 | with no party to invalidate the global counter moves by one, and the removal raises when that holds no number |
| PermissionRuns.RemoveOkIff | src/core/permissions/projector.py:100-123 | it goes through exactly when all parties that it invalidates have a tenant and a subject that are not blank |
| Permissions.PolicyProjector.ReconcileAll | src/core/permissions/projector.py:125-177 | a repair leaves exactly the expected rows and invalidates all parties concerned; without repair nothing changes and what differs is reported |
| Permissions.ReconcileExact | src/core/permissions/projector.py:125-177 | a repair that goes through ends in the expected rows, and another reconciliation finds nothing; it says it repaired exactly when something differed; without repair the report is exactly the expected rows not stored and the stored rows not expected |
| PermissionRuns.ReconcileOkIff | src/core/permissions/projector.py:125-177 | it goes through exactly when the permissions of all grants are registered and, if there is anything to repair, all parties concerned can be invalidated |
| PermissionRuns.GetIsSound | src/core/permissions/cache.py:81-107 | what a sound cache gives back is right for the table |
| PermissionRuns.SetIsSound | src/core/permissions/cache.py:109-123 | caching a right match keeps the cache sound |
| PermissionRuns.FindIsSound | src/core/permissions/backends.py:170-194 | a cached lookup answers as the table stands and keeps the cache sound |
| PermissionRuns.ChangeIsSound | src/core/permissions/projector.py:77-184 | a table change keeps the cache sound when each party it touches got a new marker |
| PermissionRuns.ProjectIsSound | src/core/permissions/projector.py:77-98 | a projection that takes no other party's newest allow row away keeps the cache sound |
| PermissionRuns.ProjectionOutcome | src/core/permissions/projector.py:77-98 | a projection stores the new rows or nothing, and moves the marker of the grant's party |
| PermissionRuns.RemoveIsSound | src/core/permissions/projector.py:100-123 | removing a projection keeps the cache sound |
| PermissionRuns.ReconcileIsSound | src/core/permissions/projector.py:125-177 | reconciling, with or without repair, keeps the cache sound |
| PermissionRuns.LookupsAreCorrect | src/core/permissions/backends.py:170-194 | over every call-at-a-time history without unsafe moves a cached lookup answers None exactly when no row allows the query, else a row of the newest version |
| PermissionRuns.FixedOwnersAreSafe | src/core/permissions/projector.py:77-177 | grants that keep their tenant and subject make every projection of every history safe |
| PermissionRuns.LookupsFromEmpty | src/core/permissions/backends.py:170-194 | from an empty table and cache, every history in which grants keep their tenant and subject answers every lookup correctly |
| PermissionRuns.MovesAreSafeIff | src/core/permissions/projector.py:90-97 | a projection leaves the right answers of all other parties right exactly when it takes none of their newest allow rows |
| PermissionRuns.MovedGrantStaysCached | src/core/permissions/projector.py:90-97 | when a grant moves to another tenant or subject and takes a newest allow row away, the party it leaves still gets the cached match, which is no answer any more |
| PermissionRuns.LookupsStayRightIff | src/core/permissions/projector.py:77-98 | a projection leaves all cached lookups right, from every sound cache, exactly when it takes no other party's newest allow row away |
| QuotaUsage.CallsAgree | src/core/quotas/usage.py:37-54 | from equal usage both stores give one call the same reply and keep equal usage |
| QuotaUsage.RefusedIff | src/core/quotas/usage.py:56-74 | a call is refused, changing nothing, exactly for a blank key, a negative usage or limit, or an amount that is not positive |
| QuotaUsage.SetThenGet | src/core/quotas/usage.py:28-35 | what is set is what is then got, and other keys keep their usage, on either store |
| QuotaUsage.StoresAgree | src/core/quotas/usage.py:98-138 | over any history the database store answers what the memory store answers |
| QuotaUsage.RaceIsSequentialIff | src/core/quotas/usage.py:104-127 | a reservation that found no row to update and raced with a rival's insert ends as if it had come right after it exactly when the rival came after the look-up or left no room |
| QuotaUsage.MemoryQuotaUsageStore.GetUsage | src/core/quotas/usage.py:28-30 | the usage of a key, zero when there is none |
| QuotaUsage.MemoryQuotaUsageStore.SetUsage | src/core/quotas/usage.py:32-35 | sets a usage that is not negative |
| QuotaUsage.MemoryQuotaUsageStore.Reserve | src/core/quotas/usage.py:37-46 | adds the amount when it fits under the limit |
| QuotaUsage.MemoryQuotaUsageStore.Release | src/core/quotas/usage.py:48-54 | takes the amount off, stopping at zero |
| QuotaUsage.DatabaseQuotaUsageStore.SetUsage | src/core/quotas/usage.py:87-96 | sets a usage that is not negative |
| QuotaUsage.DatabaseQuotaUsageStore.Reserve | src/core/quotas/usage.py:98-127 | conditional update, look-up, insert and one retry equal `DatabaseReserve`, with a rival's insert before the look-up or before the insert |
| QuotaUsage.DatabaseQuotaUsageStore.Release | src/core/quotas/usage.py:129-138 | takes the amount off an existing row, stopping at zero |
| QuotaGate.KeyIdentifies | src/core/quotas/rules.py:20-71 | reservations share a counter only for one metric, scope and scoped subject |
| QuotaGate.KeyExistsIff | src/core/quotas/rules.py:20-71 | a subject has a key in a scope exactly when the parts that the scope asks for are given, not blank and without ':' |
| QuotaGate.RequireExact | src/core/quotas/provider.py:67-105 | a reservation goes through exactly when it is chargeable and fits; then its key grows by its amount, else nothing changes and the error is named |
| QuotaGate.ReserveReports | src/core/quotas/provider.py:67-138 | a decision gives the usage before the reservation, what it would come to and what that leaves of the limit, allowed or not |
| QuotaGate.NotChargeable | src/core/quotas/provider.py:67-115 | without a key or a positive amount neither a reservation nor a release reaches the store |
| QuotaGate.ReservesWhatFits | src/core/quotas/gate.py:78-95 | the loop stops at the first reservation that does not fit on top of the earlier ones |
| QuotaGate.ReleaseTakesDemand | src/core/quotas/gate.py:113-119 | releasing in reverse takes each key's demand off its usage and raises nothing |
| QuotaGate.ReleaseStopsAt | src/core/quotas/gate.py:113-119 | a reservation that cannot be charged ends the release with an error: what comes after it was given back, what comes before it was not |
| QuotaGate.NoClampWithinUsage | src/core/quotas/usage.py:48-54 | the clamp at zero does not fire for usage that the reservations account for |
| QuotaGate.RunOkIff | src/core/quotas/gate.py:70-111 | the gate goes through exactly when every reservation fits and the handler returns |
| QuotaGate.SuccessReports | src/core/quotas/gate.py:70-111 | success hands back the handler's value and one decision per reservation, in order, each on top of the earlier ones |
| QuotaGate.SuccessAddsUp | src/core/quotas/gate.py:70-111 | success raises every key by the sum of its amounts, and no key ends above its old usage and its rules' limits |
| QuotaGate.RollBackRestores | src/core/quotas/gate.py:93-103 | giving back what the loop took restores every key, without a clamp |
| QuotaGate.FailureRestores | src/core/quotas/gate.py:93-103 | a refused reservation or a raising handler leaves every usage exactly as it was; the error is that of the first reservation that does not fit, or else the handler's |
| QuotaGate.RunsAgree | src/core/quotas/gate.py:70-119 | the gate gives the same results over either store |
| QuotaRaces.ReserveIsStoreReserve | src/core/quotas/usage.py:98-127 | statement by statement and without interruption a reservation is the call of the database store, and the service then allows exactly what is in the row |
| QuotaRaces.RivalsAreStoreReserve | src/core/quotas/usage.py:104-127 | with a rival's insert before the look-up or before the insert it is that call, too |
| QuotaRaces.StoreAnswers | src/core/quotas/usage.py:104-127 | inside the store's call a statement answers by an insert, by a committed update, or by a refusal that leaves the row; both of the latter are read again |
| QuotaRaces.ReadThenWriteIsRelease | src/core/quotas/usage.py:129-138 | a read followed at once by its write-back is the release of the database store |
| QuotaRaces.ReadAgainIsDecision | src/core/quotas/provider.py:67-88 | after a commit and after a refusal alike the service decides on a second reading |
| QuotaRaces.UsageIsAccounted | src/core/quotas/usage.py:98-138 | in every interleaving the row holds its first value, every committed amount that was not given back, and the drift of the write-backs |
| QuotaRaces.UsageIsConservedIff | src/core/quotas/usage.py:129-138 | from a balanced state a run is balanced throughout exactly when every write-back takes its own |
| QuotaRaces.CallersAreOffBy | src/core/quotas/provider.py:67-105 | once all callers have their answer, the row is off from what they know of by what was lost, by what was allowed without a commit, and by the drift |
| QuotaRaces.CallersAccountForUsageIff | src/core/quotas/provider.py:67-105 | once all callers have their answer, and every write-back took its own, the row accounts for what they know of exactly when as much was lost as was allowed without a commit |
| QuotaAnswers.InsertedMeanwhileIsPhantom | src/core/quotas/usage.py:106-119 | a row inserted between update and look-up makes the store refuse and the service allow the same reservation, with nothing in the row |
| QuotaAnswers.FreedMeanwhileIsPhantom | src/core/quotas/provider.py:85-88 | a release that nobody interrupts does the same between the refusal and the second reading |
| QuotaAnswers.PhantomReleaseTakesKept | src/core/quotas/gate.py:93-119 | releasing such a reservation takes its amount out of another caller's, though every write-back finds what its release read |
| QuotaAnswers.OverlappingReleasesLeak | src/core/quotas/usage.py:129-138 | of two releases that overlap, the first can be forgotten: everything is given back and its amount stays in the row |
| QuotaAnswers.ReleaseWipesReservation | src/core/quotas/usage.py:129-138 | a release can write over a reservation made since its read, so that a kept reservation is not in the row |
| QuotaAnswers.OvertakenIsLost | src/core/quotas/usage.py:106-117 | on an existing row, with two different limits on one key, a reservation overtaken before its second reading is kept in the row and reported as refused |
| QuotaAnswers.NothingIsLostIff | src/core/quotas/usage.py:98-138 | no interleaving loses a reservation exactly when all limits of the key that let anything through are the same |
| QuotaAnswers.NothingIsPhantomIff | src/core/quotas/provider.py:67-88 | no interleaving allows a reservation without a commit exactly when nobody releases and the row exists beforehand or limits are at most one, or limits are zero |
| QuotaAnswers.AlwaysAccountedIff | src/core/quotas/provider.py:67-105 | over all interleavings the row holds what the callers know they have, whenever all have their answers, exactly under both conditions |
| QuotaGate.QuotaService.Reserve | src/core/quotas/provider.py:67-88 | the decision of one reservation |
| QuotaGate.QuotaService.RequireReserve | src/core/quotas/provider.py:90-105 | a refused decision is an error |
| QuotaGate.QuotaService.Release | src/core/quotas/provider.py:107-115 | releases a validated amount |
| QuotaGate.QuotaMutationGate.ReleaseInReverse | src/core/quotas/gate.py:113-119 | the loop in reverse order equals `ReleaseReversed` |
| QuotaGate.QuotaMutationGate.ReserveAndRun | src/core/quotas/gate.py:70-111 | reserve all, run, roll back on error: equals `Ran` |
| Scheduler.ValidConfigMatches | src/core/scheduler/repository.py:236-262 | with fields in range, a minute of a day matches exactly when its hour and its minute are listed, the day split written out |
| Scheduler.FirstItemDecides | src/core/scheduler/repository.py:250-262 | a field is read up to the item that matches or is out of range or no number; the latter fails the match, an item behind a match is never looked at |
| Scheduler.HourIsReadFirst | src/core/scheduler/repository.py:236-247 | the minute field is only read in hours that match, so an invalid minute fails no other slot |
| Scheduler.ScanExact | src/core/scheduler/repository.py:219-233 | the minute scan finds exactly the matching minutes, in order, or fails when some match fails |
| Scheduler.DueSlotsExact | src/core/scheduler/repository.py:219-233 | due slots are the ordered filter of the minutes in (after, until] |
| Scheduler.PlanAfterLast | src/core/scheduler/repository.py:121-150 | planned and skipped slots come after the last one on record, in order |
| Scheduler.ConsumeInOrder | src/core/scheduler/runtime.py:148-184 | of a plan the triggered slots are in order, none of them raised, and the record is the last of them |
| Scheduler.IterateAdvances | src/core/scheduler/runtime.py:131-184 | one iteration triggers only later slots and never moves the record back |
| Scheduler.FirstRunTriggersNow | src/core/scheduler/repository.py:225-226 | with nothing on record, an iteration under every known policy triggers the current minute exactly when the fields list it and the trigger does not raise, and puts it on record |
| Scheduler.IterateTriggersPlanned | src/core/scheduler/runtime.py:148-184 | an iteration triggers exactly the planned slots whose trigger does not raise, and records the last of them |
| Scheduler.FailureChangesNothing | src/core/scheduler/runtime.py:131-147 | a failing match or an unknown policy triggers nothing and keeps the record |
| Scheduler.NoSlotTwice | src/core/scheduler/runtime.py:131-184 | over any iterations, clock readings and trigger exceptions the triggered slots strictly increase |
| Scheduler.BacklogShrinks | src/core/scheduler/repository.py:219-233 | after the first j slots are on record, the rest is due |
| Scheduler.CatchUpStep | src/core/scheduler/repository.py:147-149 | one catch-up iteration triggers the first `limit` slots of the backlog |
| Scheduler.CatchUpIsComplete | src/core/scheduler/repository.py:138-149 | ceil(n / limit) iterations trigger the whole backlog once, in order, and further ones nothing |
| Scheduler.CatchUpProgress | src/core/scheduler/repository.py:138-149 | fewer iterations trigger exactly the first times * limit slots |
| Scheduler.RunOnceTriggersNewest | src/core/scheduler/repository.py:145-146 | `run_once` triggers the newest backlog slot and no other |
| Scheduler.SkipTriggersOnlyNow | src/core/scheduler/repository.py:138-144 | `skip` triggers the current minute exactly when it is due and does not raise, and otherwise puts the newest older due slot on record, so that none of them is triggered later |
| Scheduler.ScheduleStateRepository.CronDueSlots | src/core/scheduler/repository.py:219-233 | the cursor loop equals `DueSlots` |
| Scheduler.ScheduleStateRepository.PlanCronDueSlots | src/core/scheduler/repository.py:121-150 | the plan of the schedule's state equals `PlanOf` |
| Scheduler.PlannedAtIsMinute | src/core/scheduler/repository.py:265-269 | a clock reading is planned at the minute it lies in |
| Scheduler.ScheduleStateRepository.UpsertState | src/core/scheduler/repository.py:191-216 | the one state of the schedule is written, keeping its trigger time unless a new one is given |
| Scheduler.ScheduleStateRepository.MarkTriggered | src/core/scheduler/repository.py:152-166 | records a triggered slot |
| Scheduler.ScheduleStateRepository.MarkSkippedUntil | src/core/scheduler/repository.py:168-181 | records skipped slots without a trigger time |
| Scheduler.RunSchedule | src/core/scheduler/runtime.py:131-184 | plan, skip, trigger and record one schedule: equals `Iterate`; the state table changes for this schedule alone, to the last triggered or skipped slot with its times; every planned slot is triggered or counted as failed |
| DepthFirst.DepthFirstSearch.VisitNode | src/core/migrations/planner.py:59-80 | the recursive visit leaves the state of `Visit` |
| DepthFirst.DepthFirstSearch.VisitRoots | src/core/migrations/planner.py:82-83 | visiting every root leaves the state of `Search` |
| DepthFirst.VisitSound | src/core/migrations/planner.py:64-80 | each visit keeps the invariant on path, visited set, order and reported cycles |
| DepthFirst.OrderExcludesCycles | src/core/apps/dependencies.py:64-102 | an order with dependencies first leaves no closed walk |
| DepthFirst.SearchIsExact | src/core/apps/dependencies.py:64-102 | started from all nodes every node is ordered once, cycles or not; only real cycles are reported, and none exactly when there is none; then every node comes after its dependencies |
| Migrations.PlanOkIff | src/core/migrations/planner.py:36-84 | no errors exactly when keys are distinct, nothing is missing and the combined graph has no cycle |
| Migrations.KeyIdentifies | src/core/migrations/manifest.py:33-35 | manifests have one key exactly when app and id are the same, as long as no app label holds a ':' |
| Migrations.DependencyNames | src/core/migrations/planner.py:100-101 | a dependency with a ':' names app and migration, one without a migration of the same app |
| Migrations.ErrorsExact | src/core/migrations/planner.py:36-84 | missing dependencies and doubled keys are reported exactly when they are there; every reported cycle is real, and some is reported when there is one |
| Migrations.PlanIsPermutation | src/core/migrations/planner.py:85-97 | with distinct keys a plan holds every manifest once, whatever else is wrong |
| Migrations.PlanIsOrdered | src/core/migrations/planner.py:59-97 | every manifest comes after all it depends on, by declaration or by app |
| Migrations.PhaseIsSubsequence | src/core/migrations/planner.py:85-97 | the phase filter keeps the order |
| Migrations.PhaseKeepsItsOwn | src/core/migrations/planner.py:85-97 | the phase filter drops exactly the other phases |
| Migrations.PlanIgnoresInputOrder | src/core/migrations/planner.py:30-97 | with distinct keys, listing the manifests in another order changes neither plan nor cycles, and only the order of missing dependencies |
| Migrations.BuildGraph | src/core/migrations/planner.py:40-57 | the loops over manifests and apps together build the graph, and report the missing dependencies in order |
| Migrations.ReadManifests | src/core/migrations/planner.py:40-50 | the loop over the manifests: manifests by app, declared edges, missing dependencies |
| Migrations.ReadDependencies | src/core/migrations/planner.py:44-49 | the loop over one manifest's dependencies |
| Migrations.AddAppEdges | src/core/migrations/planner.py:52-57 | the loops over apps and their dependencies add the edges between their manifests |
| Migrations.AddPairs | src/core/migrations/planner.py:55-57 | the two inner loops add an edge for every pair of manifests |
| Migrations.EdgesAreDependencies | src/core/migrations/planner.py:39-57 | the edges that the loops add are exactly the declared and the app dependencies on existing manifests |
| Migrations.EdgeIffMustFollow | src/core/migrations/planner.py:39-57 | the edges of the graph are exactly the pairs of manifests of which one must come after the other |
| Migrations.PlanMigrations | src/core/migrations/planner.py:30-97 | the whole planner equals `PlanOf` |
| AppDependencies.EarlyErrorsIff | src/core/apps/dependencies.py:23-57 | labels or dependencies are reported exactly when a label is doubled or a dependency missing |
| AppDependencies.EarlyErrorsExact | src/core/apps/dependencies.py:27-52 | under each label one error for every module after its first, and then what is missing from the first |
| AppDependencies.ValidIff | src/core/apps/dependencies.py:23-102 | validation passes exactly when labels are distinct, nothing is missing and there is no cycle |
| AppDependencies.CyclesAreReal | src/core/apps/dependencies.py:74-95 | every reported cycle is real and filed under its first label |
| AppDependencies.ValidOrderIsPermutation | src/core/apps/dependencies.py:64-102 | the order of valid apps holds exactly those apps, once each |
| AppDependencies.ValidOrder | src/core/apps/dependencies.py:64-102 | each app comes after all it depends on |
| AppDependencies.CollectLabels | src/core/apps/dependencies.py:27-39 | the label loop: the dictionary, the order of its keys, the duplicate errors |
| AppDependencies.CollectMissing | src/core/apps/dependencies.py:41-52 | the loop over the dictionary reports the missing dependencies of the first module of each label |
| AppDependencies.TopologicalOrder | src/core/apps/dependencies.py:64-102 | the search over the labels and its cycle errors |
| AppDependencies.ValidateAppDependencies | src/core/apps/dependencies.py:23-61 | the whole validation equals `Validate` |
| UnitsOfWork.ContextRestored | src/core/db/transactions.py:64-101 | whatever runs inside a scope and however it ends, the scopes around it are the same again but for rollback marks |
| UnitsOfWork.NestedScopesAreSilent | src/core/db/transactions.py:74-81 | nested scopes never open, end or close a session |
| UnitsOfWork.MarksReachOutermost | src/core/db/transactions.py:92-95 | the outermost scope is marked exactly when a scope inside was left with an exception or asked for a rollback |
| UnitsOfWork.OutermostScope | src/core/db/transactions.py:56-90 | an outermost scope opens, ends and closes one session, and commits exactly when nothing inside failed or was marked; only a failing tenant fallback leaves it open |
| UnitsOfWork.SessionsAreBalanced | src/core/db/transactions.py:40-90 | over any program every opened session is committed or rolled back once and closed once before the next, all but exactly those whose tenant fallback raises on entry |
| UnitsOfWork.RefusedIffConflict | src/core/db/transactions.py:42-55 | entry is refused exactly when some scope around has another tenant |
| UnitsOfWork.EntryJoins | src/core/db/transactions.py:40-62 | a nested scope is refused for another tenant, an empty id counting as none; else it joins session, fallback and tenant around it, without a mark |
| UnitsOfWork.FinalState | src/core/db/transactions.py:64-90 | a nested scope ends joined, or rolled back with an exception; the outermost one as it ended its session, and stays active when that fails |
| UnitsOfWork.OneTenantPerChain | src/core/db/transactions.py:42-55 | on every entry of every run all tenants set along the ancestor chain are equal |
| UnitsOfWork.TwoTenantsInOneTransaction | src/core/db/transactions.py:42-55 | when the outermost scope has no tenant, scopes for any two tenants can follow each other inside it, and one commit covers both |
| UnitsOfWork.TenantIsKept | src/core/db/transactions.py:42-55 | below scopes of one tenant whatever is entered has that tenant |
| UnitsOfWork.TransactionServesOneTenantIff | src/core/db/transactions.py:40-62 | whatever runs inside, a transaction serves one tenant, exactly when its outermost scope names one |
| UnitsOfWork.UnitOfWork.Enter | src/core/db/transactions.py:40-62 | joins the active scope's session or opens one, on the objects: equals `Entered` |
| UnitsOfWork.UnitOfWork.MarkRollbackOnly | src/core/db/transactions.py:92-95 | marks the scope and all its ancestors |
| UnitsOfWork.UnitOfWork.ResetContext | src/core/db/transactions.py:97-101 | puts back the scope around |
| UnitsOfWork.UnitOfWork.Exit | src/core/db/transactions.py:64-90 | joined, rolled back or ended on the objects: equals `Exited` |
| Keys.DecimalInjective | src/core/rate_limit/provider.py:191-199 | different integers are spelled differently |
| Keys.CacheKeyInjective | src/core/cache/keys.py:6-15 | cache keys are equal only when all their segments are |
| Keys.QuoteInjective | src/core/permissions/cache.py:187-194 | percent-encoding never gives two strings one spelling |
| Keys.QuoteSpells | src/core/permissions/cache.py:187-194 | letters, digits and `-._~` stay as they are; any other character becomes one escape for each of its UTF-8 octets |
| Keys.QuoteConcat | src/core/permissions/cache.py:187-194 | strings are encoded character by character |
| Keys.QuoteHasNoColon | src/core/permissions/cache.py:187-194 | an encoded value never holds the separator |

## Left out

- Database sessions, savepoints, isolation levels and the rollback of a whole dispatch transaction: each statement takes effect at once.
- Outside `LockRuns`, `ClaimRaces`, `EventRaces`, `ReplayRaces` and `QuotaRaces` a call that reads a row and then writes it is one step: claims, sweeps and replays in `IdempotencyRuns`, `OutboxRuns`, `EventRuns` and `SideEffectRuns`, schedule states, `set_usage`.
- Marks of an idempotency record set every column that they assign, also those whose value is the one the run read.
- `set_usage` while reservations of the key are outstanding, and callers that release an amount twice or without having been allowed it.
- An external publisher between the handlers and the completion: without one, a published event has had all handlers return.
- The dispatcher's optional lock around a dispatch, its metrics and its audit records.
- Dispatching without an idempotency store, which calls every handler without a record.
- Event schemas: registration and compatibility across versions; the minimal schema of a handler's event and the validation of payloads are modelled.
- Loading handlers by import path, and the event handler that turns a grant change into `project_grant` or `remove_grant_projection`.
- Events.SideEffectHashInjective: holds of the unambiguous spelling that stands for the digest; that SHA-256 of the JSON text never collides cannot be proved.
- Events.HandlerHashInjective: rests on the same spelling.
- Events.SharedScopeIsRefused: rests on the same spelling.
- Request hashes are modelled by an unambiguous spelling of the hashed fields, so two different requests never collide; JSON encoding itself is not modelled.
- The Redis lock and the Redis cache: their server-side scripts and replies are not part of this model.
- Task queue and task provider: src/core/tasks/repository.py is not part of this model.
- The fixed-window `CacheRateLimiter`, the recording of hits, and floating-point rounding in the sliding window: weights are exact rationals.
- The sliding window limiter and its cache read the clock once per check, at the same instant.
- Interleavings inside one cached permission lookup, where the marker is read after the backend's query: histories are call at a time.
- The `id` column of projected policies: rows are told apart by the unique constraint, which the repair's deletion by id respects; the order in which several parties are invalidated is any order, not the sorted one.
- The quota gate's roll-back under interleaving: `QuotaRaces` and `QuotaAnswers` follow single reservations of one key, the gate's list of reservations runs alone.
- Quota registry configuration, `check` without a reservation, and quota audit.
- Parsing of cron items from strings: a field is `*` or a list of integers, blanks and non-numbers.
- Two scheduler processes on one schedule, and the lock that `LockedScheduleProvider` takes around a trigger: iterations run one after the other.
- Several schedules in one scheduler iteration share nothing but the state table, so one schedule is modelled at a time; the work behind a trigger is a parameter.
- Units of work in concurrent tasks with copied contexts, a scope object that is entered twice, and a session whose `close` raises.
- The recursion limit of the interpreter in the depth-first searches.
- HTTP routing, middleware, command line, templates, metrics text, storage clients, message catalogs and admin pages.
