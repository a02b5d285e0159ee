# UltimateCoders durable runtime, modelled in Dafny

UltimateCoders runs coding subtasks on many workers and keeps what happened in a durable runtime: an event log with
checkpoints, an outbox of subtask outcomes, execution claims, an effect ledger, rate limits, task budgets and audit
trails. This project models those protocols and proves what they keep over every run: any number of clients, crashes,
redeliveries, lost replies and lapses of leases, in any interleaving.

`dafny verify dfyconfig.toml` checks the whole project.

| module | models |
|---|---|
| `Events`, `TaskReducer`, `Checkpoint` | the event store, the 18-variant reducer, snapshot creation, lookup and recovery |
| `ReplayMeaning`, `OverReplay` | what a replayed snapshot says about its events; what replaying already applied events does |
| `CheckpointProtocol` | the same with append and snapshot creation split at every await, and many clients |
| `Text`, `Ordering`, `LikePattern`, `RuntimeState` | colon-joined keys and their prefixes; the versioned, indexed record store and its escaped prefix query |
| `Outbox`, `Delivery`, `Leases` | outcome records, supersession, delivery leases, compaction; many workers delivering; who may claim when |
| `Dispatch` | the worker body: redelivery, settled checks, claims, run, persist, acknowledge |
| `EffectLedger`, `EffectWorld` | the effect states, and the ledger against a world whose replies get lost |
| `RateLimiter`, `RateLimiterRuns` | token buckets and the limiter, serial and with concurrent callers |
| `Budget` | admission before spending, accounting after |
| `Pagination`, `ScanRuns`, `AttemptLogs` | newest-first keyset paging; the scan against a changing store; context manifests and decision records |
| `PathGlob` | the compiler from `paths` entries to regular expressions |

Objects whose methods update fields in the source are classes here; each method is tied to a function on values, and
the lemmas are about those functions. Protocols with several clients are state machines: `Enabled` says what may happen
next, `Step` what it does, `Reaches` ranges over all runs. Every store mutation is one atomic step, as the transaction
makes it. Time is a real number that does not run back, random tokens are numbers never handed out before, hashes are
plain strings, and JSON records are datatypes.

## Where the code differs from its own description

- Replaying events that a snapshot already contains is described as safe because the reducer is idempotent
  (crates/uc-engine/src/events.rs:429-433). It is for single events (`ApplyTwice`) and for all subtasks
  (`SecondReplayKeepsNodes`), but not for the parent status (`OverReplayCanCorrupt`). `SecondReplayHarmlessIff` is the
  exact condition. Recovery does not need it: it applies every event exactly once.
- The snapshot lookup by string prefix also finds snapshots of tasks whose id continues the id after a colon.
  `LookupMatchesIff` is the exact condition, `ShadowedRecoveryAnswersForAnotherTask` the consequence.
- The in-memory append takes its offset and pushes in two steps. Recovery stays exact if appends to one subject do not
  overlap; `PushAppliedIffPastCut` is the exact condition for one late push, `OverlappingAppendsLoseAnEvent` a lost event.
- Compaction is described as keeping old dispatches from running again (python/ultimate_coders/runtime_state.py:283).
  A tombstone drops the attempt and settles nothing (`CompactKeepsSettledIff`), so a persisted, delivered and
  acknowledged attempt can run again (`CompactionLetsItRunAgain`). The bounds on runs count compactions.
- The execution claim is acquired under one key and released under another (python/ultimate_coders/nats_worker.py:3336
  and 3461), so it stays until its process dies (`ClaimHeldUntilDeath`). No safety result depends on the release.
- A dispatch answered by the success of a lower attempt can be acknowledged after a failure of an attempt in between
  replaced that success (`AckIsJustified`, `StoreKeepsSettledIff`, `AnswerCanBeOvertaken`). The only other way to
  acknowledge an unsettled dispatch is a compaction after the decision.
- A rate-limited caller is promised a wait. After a token rejection the promise holds; after a request rejection it
  holds exactly if the token bucket has the estimate by then (`RequestPromiseIsKeptIff`).
- With concurrent callers more is admitted between two points than capacity and earnings: a refund of a request taken
  earlier lets one more through (`RefundLetsOneMoreThrough`), and so does a take whose refill happened earlier
  (`LateTakeLetsOneMoreThrough`). `AdmissionBound` counts both.
- The blocking take is described as backing off exponentially (crates/uc-engine/src/rate_limiter.rs:64-66); it retries
  every ten milliseconds, and so does the model.
- Confirming is described as legal from any non-terminal state (python/ultimate_coders/effect_ledger.py:195); the code
  refuses it from PREPARED (`AcceptedIff`).
- The bound of 300 seconds on the delivery backoff (python/ultimate_coders/outbox.py:144) is never reached: the delay
  stops doubling at 256 (`BackoffDoubles`).
- Accounting reports `admitted=False` when no limit is set (`VerdictsAgreeIffLimited`).
- The transition table of the effect ledger allows UNKNOWN to PREPARED; no method makes that move (`MovesAreAllowed`).

## Model

| member | source | states |
|---|---|---|
| `Events.InMemoryEventStore.Append` | crates/uc-engine/src/events.rs:219-236 | The event goes to the end of its subject under the next global offset; all streams stay strictly increasing and below the counter. |
| `Events.InMemoryEventStore.ReadFrom` | crates/uc-engine/src/events.rs:238-252 | Returns exactly the events at or past the offset, in order. |
| `Events.InMemoryEventStore.LatestOffset` | crates/uc-engine/src/events.rs:254-260 | The offset of the subject's last event, zero if none. |
| `Events.CutSplits` | crates/uc-engine/src/checkpoint.rs:112-185 | A cut at any offset splits a stream into what the snapshot replays and what recovery reads: every event on exactly one side, in order. |
| `Events.FromEndsAtLast` | crates/uc-engine/src/checkpoint.rs:176-196 | Reading from any offset ends at the stream's own last event, unless nothing is read. |
| `TaskReducer.SnapshotCell.ApplyEvent` | crates/uc-engine/src/checkpoint.rs:311-441 | The in-place edit of the snapshot is the reducer on values, for all 18 variants. |
| `TaskReducer.SnapshotCell.EditNode` | crates/uc-engine/src/checkpoint.rs:311-405 | Only the first node with the event's id changes; an assignment of an unknown id adds one node. |
| `TaskReducer.SnapshotCell.RefreshParent` | crates/uc-engine/src/checkpoint.rs:257-284 | The in-place refresh is the reducer's; what that status is, `ReplayMeaning.RefreshedStatus` says. |
| `TaskReducer.SnapshotCell.Replay` | crates/uc-engine/src/checkpoint.rs:118-127 | The replay loop is the fold of the reducer. |
| `TaskReducer.FoldKeepsIdsUnique` | crates/uc-engine/src/checkpoint.rs:311-441 | No event sequence lists one subtask twice. |
| `TaskReducer.ChildEventsKeepLatchedParent` | crates/uc-engine/src/checkpoint.rs:279-284 | No sequence of child events moves a paused, completed or failed parent. |
| `TaskReducer.ApplyTwice` | crates/uc-engine/src/checkpoint.rs:311-441 | Applying any event twice in a row equals applying it once. |
| `TaskReducer.SubtasksEvolveIndependently` | crates/uc-engine/src/checkpoint.rs:311-405 | Each subtask of a replayed snapshot is the outcome of its own events alone. |
| `ReplayMeaning.RefreshedStatus` | crates/uc-engine/src/checkpoint.rs:257-284 | After a refreshing event a paused or ended parent stays; any other is completed iff there are subtasks and all are completed, failed iff one failed, in progress iff none failed and one is assigned or started, created iff there are none, pending otherwise. |
| `ReplayMeaning.UpdateSaysIff` | crates/uc-engine/src/checkpoint.rs:419-427 | An update names a status exactly if it spells it, in any case; in progress has two spellings. |
| `ReplayMeaning.LastMoveDecides` | crates/uc-engine/src/checkpoint.rs:311-441 | After any replay the last event that sets or refreshes the parent decides its status, by what it sets or by the subtasks as it left them. |
| `ReplayMeaning.EndHolds` | crates/uc-engine/src/checkpoint.rs:279-284 | A paused, completed or failed parent stays so through any events up to the next control. |
| `ReplayMeaning.KnownIffAssigned` | crates/uc-engine/src/checkpoint.rs:319-345 | A subtask is listed exactly if it was before or was assigned since. |
| `ReplayMeaning.LastNamingDecides` | crates/uc-engine/src/checkpoint.rs:311-395 | A listed subtask is what the last event that names it left: status, worker and summary. |
| `OverReplay.SecondReplayKeepsNodes` | crates/uc-engine/src/checkpoint.rs:311-405 | Replaying any events a second time leaves every subtask, and their order, as the first replay left them. |
| `OverReplay.HistoryIsLastWritten` | crates/uc-engine/src/checkpoint.rs:311-405 | A known subtask ends with the last value written to each of its fields. |
| `OverReplay.ReplayedStatus` | crates/uc-engine/src/checkpoint.rs:257-284 | The parent status of any replay in closed form: what the last control set, or the first terminal status the subtasks derive after it, or the last they derive. |
| `OverReplay.SecondReplayHarmlessIff` | crates/uc-engine/src/events.rs:429-433 | A second replay gives the same snapshot if and only if the last control latches the parent, nothing refreshes it afterwards, or what the snapshot's own subtasks derive settles on the status it has. |
| `OverReplay.ReplayableAnywhere` | crates/uc-engine/src/events.rs:429-433 | A second replay is harmless on every snapshot if nothing refreshes the parent after its last control, or every subtask named after it was assigned before it. |
| `OverReplay.OverReplayCanCorrupt` | crates/uc-engine/src/events.rs:429-433 | A suffix outside that condition: its second replay moves a completed parent back to in progress. |
| `Checkpoint.LookupMatchesIff` | crates/uc-engine/src/checkpoint.rs:228-246 | The prefix lookup matches a snapshot of another id if and only if the ids are equal or the other continues this one after a colon. |
| `Checkpoint.KeysAreSeparate` | crates/uc-engine/src/checkpoint.rs:70-112 | Two tasks never share a subject, and one task never files two cuts under one key. |
| `Checkpoint.RecoverIsReplay` | crates/uc-engine/src/checkpoint.rs:157-215 | From any exact snapshot, recovery gives the state of a full replay, and the later of the stream's last offset and the cut. |
| `Checkpoint.RecoverFromScratchIsReplay` | crates/uc-engine/src/checkpoint.rs:188-215 | Without a snapshot, recovery is a full replay. |
| `Checkpoint.NothingRecorded` | crates/uc-engine/src/checkpoint.rs:188-215 | A task of which nothing is recorded recovers as created, without subtasks. |
| `Checkpoint.RecoveryExact` | crates/uc-engine/src/checkpoint.rs:157-246 | Whichever latest snapshot the lookup returns, recovery of an unshadowed task equals a full replay. |
| `Checkpoint.RecoveryExactInMemory` | crates/uc-engine/src/checkpoint.rs:157-215 | Against the in-memory store the last offset agrees as well. |
| `Checkpoint.ShadowedRecoveryAnswersForAnotherTask` | crates/uc-engine/src/checkpoint.rs:228-246 | For every id and suffix, a snapshot of the longer id is returned for the shorter one. |
| `Checkpoint.PushKeepsExact` | crates/uc-engine/src/checkpoint.rs:78-98 | An append past every stored cut leaves all snapshots exact. |
| `Checkpoint.InsertKeepsExact` | crates/uc-engine/src/checkpoint.rs:105-149 | The snapshot that creation files is exact, and filing it keeps the others so. |
| `Checkpoint.CheckpointManager.RecordEvent` | crates/uc-engine/src/checkpoint.rs:78-98 | The whole new state: one append, and on every interval-th event that names a task a snapshot and its marker event; stored snapshots stay exact. |
| `Checkpoint.RecordingCounts` | crates/uc-engine/src/checkpoint.rs:78-98 | Over any list of recorded events, each takes one offset, and one more for each snapshot it causes. |
| `Checkpoint.OnePerInterval` | crates/uc-engine/src/checkpoint.rs:84-95 | If all events name a task, n of them cause n divided by the interval snapshots, and none without an interval. |
| `Checkpoint.DueFilesItsTask` | crates/uc-engine/src/checkpoint.rs:84-149 | A due event files the full replay of the task it names, itself included; any other event files nothing. |
| `Checkpoint.CheckpointManager.CreateSnapshot` | crates/uc-engine/src/checkpoint.rs:105-149 | Files the replay of the whole stream under the stream's last offset and appends the marker; stored snapshots stay exact. |
| `Checkpoint.CheckpointManager.FindLatestSnapshot` | crates/uc-engine/src/checkpoint.rs:228-246 | None if no key matches, otherwise a matching snapshot of the highest offset. |
| `Checkpoint.CheckpointManager.Recover` | crates/uc-engine/src/checkpoint.rs:157-215 | In every state calls can reach, the recovered snapshot is the full replay, last offset included, for an unshadowed task. |
| `CheckpointProtocol.RecoveryIsReplayInEveryRun` | crates/uc-engine/src/checkpoint.rs:105-215 | With appends, cut reads, replays and filings of many clients interleaved, any cut from the subject's last offset up to the global counter, and further steps between the snapshot lookup and the read of the events after it, recovery equals full replay. |
| `CheckpointProtocol.RunKeepsInv` | crates/uc-engine/src/events.rs:219-260 | Over every run: streams ordered, pending offsets past their streams, cuts closed, stored snapshots exact. |
| `CheckpointProtocol.ClosedStays` | crates/uc-engine/src/events.rs:422-447 | Once a cut is closed no later step can bring an event to its subject at or below it. |
| `CheckpointProtocol.ExactStays` | crates/uc-engine/src/checkpoint.rs:157-167 | A snapshot in hand stays the exact replay up to its cut along every run. |
| `CheckpointProtocol.SerialAppend` | crates/uc-engine/src/events.rs:219-236 | Two-step append with nothing in between is the manager's append. |
| `CheckpointProtocol.SerialSnapshot` | crates/uc-engine/src/checkpoint.rs:105-149 | Snapshot creation split at its awaits, with nothing in between, is the manager's. |
| `CheckpointProtocol.PushAppliedIffPastCut` | crates/uc-engine/src/events.rs:219-236 | After one more push, snapshot and suffix together are the stream if and only if the pushed offset lies past the cut. |
| `CheckpointProtocol.OverlappingAppendsLoseAnEvent` | crates/uc-engine/src/events.rs:219-236 | Two overlapping appends to one subject make recovery and replay differ. |
| `LikePattern.PrefixPatternIsPrefix` | python/ultimate_coders/runtime_state.py:267-269 | The pattern made by the three replacements selects exactly the keys with the literal prefix, whatever wildcard or escape characters it holds. |
| `LikePattern.EscapeMatchesLiterally` | python/ultimate_coders/runtime_state.py:267-269 | Escaped text followed by any pattern matches exactly the text followed by what that pattern matches. |
| `LikePattern.ReplacementsEscape` | python/ultimate_coders/runtime_state.py:269 | The replacements in their order escape each character once. |
| `Ordering.AscendingIsSort` | python/ultimate_coders/runtime_state.py:273-279 | An ascending enumeration of a set is its only sorted form, so `ORDER BY` is a function of the rows. |
| `Ordering.KeyLessIff` | python/ultimate_coders/runtime_state.py:273-279 | Keys compare by code point at the first place where they differ. |
| `RuntimeState.RuntimeState.Mutate` | python/ultimate_coders/runtime_state.py:168-224 | A version conflict or a raising change leaves the table as it was; otherwise exactly one row is replaced, its columns derived again, its version advanced by one. |
| `RuntimeState.RuntimeState.Query` | python/ultimate_coders/runtime_state.py:236-280 | After any mutations the answer is what decoding all rows, filtering, ordering by key and cutting would give: every row meets each filter that is set, and none that does is left out unless the page is full and its key comes later; limits outside 1 to 1000 are refused. |
| `RuntimeState.RuntimeState.IndexedIsDecoded` | python/ultimate_coders/runtime_state.py:153-280 | Selecting by index columns and LIKE pattern equals selecting by decoded data and literal prefix. |
| `Outbox.OutcomeOutbox.Store` | python/ultimate_coders/outbox.py:47-96 | Writes only this key: first outcome, unchanged for an attempt not higher, replaced and marked as superseding for a higher one. |
| `Outbox.OutcomeOutbox.Pending` | python/ultimate_coders/outbox.py:98-99 | Lists exactly the undelivered outcomes that are due, unless the page is full, and the empty rows left by claims of unknown keys. |
| `Outbox.OutcomeOutbox.Claim` | python/ultimate_coders/outbox.py:101-121 | Writes only this key and reports exactly whether it took the lease; when it does, `Leases.ClaimSucceedsIff` says. |
| `Outbox.OutcomeOutbox.Renew` | python/ultimate_coders/outbox.py:123-133 | Extends the lease of the token holder; for anyone else raises and changes nothing. |
| `Outbox.OutcomeOutbox.Finish` | python/ultimate_coders/outbox.py:135-150 | For the token holder ends the lease and marks delivery or backs off; for anyone else changes nothing. |
| `Outbox.OutcomeOutbox.ArchiveDelivered` | python/ultimate_coders/runtime_state.py:282-302 | Compacts exactly one page of the records delivered before the limit, counts them, and leaves every other record. |
| `Outbox.StoreKeepsSettledIff` | python/ultimate_coders/nats_worker.py:96-108 | A settled dispatch stays settled across a store unless, and only unless, a failure of an attempt strictly in between replaces a success. |
| `Outbox.CompactKeepsSettledIff` | python/ultimate_coders/runtime_state.py:290-298 | A settled dispatch stays settled across compaction if and only if the record is not compacted. |
| `Delivery.OnlyTheHolderDelivers` | python/ultimate_coders/nats_worker.py:3093-3118 | In every run a record becomes delivered only by the finish of the holder of its current token, whose confirmed publication is the record's attempt and content at that moment. |
| `Delivery.DeliveredMeansConfirmed` | python/ultimate_coders/outbox.py:135-150 | In every reachable state a delivered record was published as it stands and confirmed. |
| `Delivery.StaleFinishIsHarmless` | python/ultimate_coders/outbox.py:135-150 | A finish whose claim was taken over or superseded changes no record. |
| `Delivery.AttemptsNeverGoBack` | python/ultimate_coders/outbox.py:73-96 | Without compaction, over every run: attempts never decrease, one attempt's content and fingerprint never change, delivered stays delivered. |
| `Delivery.CompactionIsOneWay` | python/ultimate_coders/runtime_state.py:282-302 | No undelivered record is ever compacted, and only a store reopens a tombstone. |
| `Delivery.RunKeepsInv` | python/ultimate_coders/outbox.py:47-150 | While a worker's token is current, the record still holds the attempt and content the worker claimed, in every run. |
| `Leases.ClaimSucceedsIff` | python/ultimate_coders/outbox.py:101-121 | In every reachable state a claim succeeds exactly if the outcome is undelivered, due and not under a live lease, and then holds it, content unchanged, for the lease; otherwise nothing changes. |
| `Leases.LeaseExcludes` | python/ultimate_coders/outbox.py:101-133 | Over every run after a claim or renewal, until its worker finishes or a higher attempt is stored, no claim of the key before the lease lapses changes the record or gets a claim. |
| `Leases.BackoffDoubles` | python/ultimate_coders/outbox.py:144 | The delay doubles with each delivery up to 256 seconds and stays there. |
| `Leases.FailedDeliveryRests` | python/ultimate_coders/outbox.py:135-150 | After a delivery that was not accepted no claim succeeds before the backoff for that many deliveries is over, and from then on the first one does. |
| `Leases.StoreOutcome` | python/ultimate_coders/outbox.py:47-96 | A first or higher attempt replaces the record, undelivered and claimable at once, naming the attempt it superseded; any other offer changes nothing. |
| `Leases.DeliveryIsRetained` | python/ultimate_coders/runtime_state.py:282-302 | A confirmed delivery stays as it is, with its time, over every run until a compaction reaches that time, which leaves only the time. |
| `Leases.PendingIffClaimable` | python/ultimate_coders/nats_worker.py:3120-3127 | What the replay loop lists by status and due time is exactly what a claim would get, and the empty rows. |
| `Dispatch.OwnerBlocks` | python/ultimate_coders/nats_worker.py:3314-3340 | A live owner makes every other acquire of its attempt fail, whatever the process probe answers for others. |
| `Dispatch.LookDecides` | python/ultimate_coders/nats_worker.py:3260-3348 | Both settled checks stop a dispatch exactly if the record answers for its attempt or a later one, or is a success. |
| `Dispatch.AcquireDecides` | python/ultimate_coders/nats_worker.py:3314-3340 | An acquire is refused exactly under a foreign claim of an inference task, or a claim on this host whose process lives or seems to. |
| `Dispatch.OfferDecides` | python/ultimate_coders/nats_worker.py:3426-3447 | A persisted run or refusal becomes the record, with its content, exactly if the record does not reach its attempt yet. |
| `Dispatch.RunKeepsInv` | python/ultimate_coders/nats_worker.py:3196-3465 | Over every run, compactions included: claims exclude, every run is lost, going on or persisted, and persists and handlers past the second check together exceed compactions by at most one. |
| `Dispatch.RunsAtMostOncePlusLosses` | python/ultimate_coders/nats_worker.py:3260-3348 | Over every interleaving of redeliveries an attempt runs at most once plus once per run ended by a death, a cancellation or a failed persist, plus once per compaction. |
| `Dispatch.NoRunAfterPersist` | python/ultimate_coders/nats_worker.py:3342-3348 | A run starts only if every persisted run of the attempt was compacted since; without compaction the second settled check closes the race. |
| `Dispatch.CompactionLetsItRunAgain` | python/ultimate_coders/runtime_state.py:282-302 | From the start, a run that was persisted, delivered, acknowledged and compacted is followed by another run of the same attempt, with no run lost. |
| `Dispatch.RunsAtMostOncePlusDeaths` | python/ultimate_coders/nats_worker.py:3314-3340 | With the release that misses its claim, an attempt runs at most once plus once per dead process. |
| `Dispatch.ClaimHeldUntilDeath` | python/ultimate_coders/nats_worker.py:3455-3465 | A claim survives every step until its process dies, and refuses every acquire of the attempt until then. |
| `Dispatch.AckIsJustified` | python/ultimate_coders/nats_worker.py:3145-3447 | On every path a dispatch is acknowledged only if cancelled or settled at that moment, or answered by a success that a failure of an attempt in between has replaced since, or if the record was compacted since the decision. |
| `Dispatch.SettledForever` | python/ultimate_coders/nats_worker.py:96-108 | Once the record's attempt reaches the dispatch's, it stays settled in every continuation without compaction. |
| `Dispatch.AnswerCanBeOvertaken` | python/ultimate_coders/nats_worker.py:3145-3194 | From every state with a stored success the exception in `AckIsJustified` is reachable. |
| `Dispatch.OtherHostRunsToo` | python/ultimate_coders/nats_worker.py:3314-3340 | For a subtask that is no inference task, another host takes over the claim of a live owner and both run. |
| `EffectLedger.EffectLedger.Perform` | python/ultimate_coders/effect_ledger.py:124-298 | Each ledger method changes exactly one record, or raises and changes nothing; which and how, the next rows say. |
| `EffectLedger.AcceptedIff` | python/ultimate_coders/effect_ledger.py:124-323 | In which statuses each call is accepted, and that only a prepare under a live lease is told it is busy. |
| `EffectLedger.AcceptedLeaves` | python/ultimate_coders/effect_ledger.py:124-298 | The status, owner, lease, grant count and result that each accepted call leaves. |
| `EffectLedger.LeaseHoldsThenUnknown` | python/ultimate_coders/effect_ledger.py:157-164 | In every trace, while only prepares follow a grant, those before its lease lapses are refused as busy and change nothing, and the first one after makes the outcome unknown. |
| `EffectLedger.AttemptsCountGrants` | python/ultimate_coders/effect_ledger.py:176-192 | In every trace the record counts its grants. |
| `EffectLedger.MovesAreAllowed` | python/ultimate_coders/effect_ledger.py:58-73 | Every move is in the transition table, and none goes from UNKNOWN to PREPARED. |
| `EffectLedger.GrantsAreSeparated` | python/ultimate_coders/effect_ledger.py:176-298 | In every trace a failure or a reconciliation that found nothing applied lies between two successful grants. |
| `EffectLedger.UnknownIsReconciledFirst` | python/ultimate_coders/effect_ledger.py:241-298 | In every trace an unknown outcome becomes prepared only by way of RECONCILING. |
| `EffectLedger.ConfirmedIsFinal` | python/ultimate_coders/effect_ledger.py:194-219 | Once confirmed, status and result never change. |
| `EffectWorld.AppliedAsRecorded` | python/ultimate_coders/effect_ledger.py:124-298 | If reports are true when recorded and nothing is applied after its grant lapsed, then over any run the effect is applied at most once, exactly once when CONFIRMED, never when PREPARED or FAILED. |
| `EffectWorld.AppliedAtMostOncePlusLate` | python/ultimate_coders/effect_ledger.py:124-298 | Over any run at most one application is not late. |
| `EffectWorld.LateApplicationDuplicates` | python/ultimate_coders/effect_ledger.py:268-298 | From every unapplied reconciliation, one late application leads to two. |
| `EffectWorld.OutdatedAnswerDuplicates` | python/ultimate_coders/effect_ledger.py:268-298 | From every applied reconciliation, an outdated answer leads to a second application under a grant. |
| `RateLimiter.TokenBucket.TryTake` | crates/uc-engine/src/rate_limiter.rs:52-62 | Refills, then takes the amount if it is there, otherwise only refills. |
| `RateLimiter.TokenBucket.GiveBack` | crates/uc-engine/src/rate_limiter.rs:85-88 | Adds up to capacity. |
| `RateLimiter.TokenBucket.TimeToWait` | crates/uc-engine/src/rate_limiter.rs:91-103 | Zero, the shortage over the rate, or an hour when the rate is not positive. |
| `RateLimiter.TokenBucket.RefillNow` | crates/uc-engine/src/rate_limiter.rs:106-116 | Earns with the elapsed time up to capacity. |
| `RateLimiter.TokenBucket.Take` | crates/uc-engine/src/rate_limiter.rs:67-73 | When the amount is there or can come to be there, the blocking take ends no later than one retry after the promised wait, having taken exactly the amount. |
| `RateLimiter.RefillInSteps` | crates/uc-engine/src/rate_limiter.rs:106-116 | Refilling on the way changes nothing about a later refill. |
| `RateLimiter.WaitSuffices` | crates/uc-engine/src/rate_limiter.rs:91-103 | After waiting at least the computed time the amount is there. |
| `RateLimiter.LlmRateLimiter.Acquire` | crates/uc-engine/src/rate_limiter.rs:181-211 | The whole new state and verdict of one acquire, refund included. |
| `RateLimiter.LlmRateLimiter.MayRequest` | crates/uc-engine/src/rate_limiter.rs:219-226 | Answers the dry check and changes nothing but the refills of the buckets it looks at. |
| `RateLimiter.CanRequestAgrees` | crates/uc-engine/src/rate_limiter.rs:181-226 | The dry check says yes exactly when the acquire at that instant succeeds. |
| `RateLimiter.TokenRejectionCostsNoRequest` | crates/uc-engine/src/rate_limiter.rs:194-202 | A token rejection leaves the request bucket as a bare refill would. |
| `RateLimiter.TokenPromiseIsKept` | crates/uc-engine/src/rate_limiter.rs:194-202 | Repeating a token-rejected call after the promised seconds succeeds, if the estimate fits the capacity and nothing else called. |
| `RateLimiter.RequestPromiseIsKeptIff` | crates/uc-engine/src/rate_limiter.rs:188-192 | Repeating a request-rejected call after the promised seconds succeeds if and only if the token bucket has the estimate then. |
| `RateLimiter.PromiseIsTight` | crates/uc-engine/src/rate_limiter.rs:188-202 | The promised seconds exceed the wait for the bucket that is short by at most one, and a call before that is rejected again. |
| `RateLimiter.OtherPromises` | crates/uc-engine/src/rate_limiter.rs:181-202 | One second without a free slot, with nothing changed; an hour and a second where the short bucket never refills. |
| `RateLimiter.DryCheckIsHarmless` | crates/uc-engine/src/rate_limiter.rs:219-226 | A dry check changes no later verdict and no later availability. |
| `RateLimiter.AcquireCounts` | crates/uc-engine/src/rate_limiter.rs:203-211 | Only a successful acquire is counted, as one slot, one request and the whole tokens of its estimate. |
| `RateLimiter.TotalsTrack` | crates/uc-engine/src/rate_limiter.rs:181-216 | Over any run of paired calls active is acquired less released and within the limit, and the token total lags the accepted estimates by at most one token per request. |
| `RateLimiter.WindowBound` | crates/uc-engine/src/rate_limiter.rs:181-226 | Between any two points of any run of acquires, releases and dry checks, accepted requests and accepted estimates are at most capacity plus rate times the time between. |
| `RateLimiterRuns.ActiveBound` | crates/uc-engine/src/rate_limiter.rs:183-205 | With n concurrent callers the active count never exceeds the limit by more than n - 1, hence never when calls are serial. |
| `RateLimiterRuns.SerialCallIsAcquire` | crates/uc-engine/src/rate_limiter.rs:181-211 | One call split into its critical sections, with nothing in between, is the serial acquire. |
| `RateLimiterRuns.AdmissionBound` | crates/uc-engine/src/rate_limiter.rs:52-116 | Under any interleaving of the refills, takes and refunds of many callers, admissions between two points are at most capacity plus rate times the time between, plus the requests held and the takes already refilled for at the first point; the same for tokens. |
| `RateLimiterRuns.RefundLetsOneMoreThrough` | crates/uc-engine/src/rate_limiter.rs:194-202 | The held requests count: from a new limiter of one request per minute a run reaches a point after which two are admitted at one instant with one held. |
| `RateLimiterRuns.LateTakeLetsOneMoreThrough` | crates/uc-engine/src/rate_limiter.rs:52-62 | The takes already refilled for count: from the same limiter two are admitted at one instant with none held. |
| `Budget.TaskBudgetLedger.Admit` | python/ultimate_coders/budget.py:188-215 | Starts the record if needed, changes nothing else, and judges it. |
| `Budget.TaskBudgetLedger.Record` | python/ultimate_coders/budget.py:219-269 | Adds the measured usage of one completion to one task, counts silent ones, and judges the result. |
| `Budget.MeasureUsage` | python/ultimate_coders/budget.py:284-300 | The summing loop is the measure; what it measures, the next row says. |
| `Budget.MeasuresWhatIsReported` | python/ultimate_coders/budget.py:284-300 | Every token field above zero counts in full, cost to within half a micro-dollar, and a report is silent iff it names no tokens and at most half a micro-dollar. |
| `Budget.RoundIsNearest` | python/ultimate_coders/budget.py:299 | Rounding goes to the nearest whole number and halfway to the even one. |
| `Budget.OvershootBounded` | python/ultimate_coders/budget.py:154-269 | In every interleaving the totals are the sums of the reported fields (cost within half a micro-dollar per report, every completion and silent report counted) and overshoot a limit by less than one subtask's most per subtask in flight; a limit of zero or less is never spent against. |
| `Budget.AdmittedIff` | python/ultimate_coders/budget.py:154-215 | In every reachable state a subtask is admitted exactly if the reported tokens, the recorded cost and the time since the first call are all below their limits; the verdict names the first that is not. |
| `Budget.RefusedForever` | python/ultimate_coders/budget.py:154-215 | Under fixed limits and a clock that does not run back, a refused task stays refused. |
| `Pagination.PageContinues` | python/ultimate_coders/runtime_state.py:236-280 | The query after the n-th key of a scope returns the next stretch of the scope. |
| `Pagination.QueryReadsNext` | python/ultimate_coders/runtime_state.py:236-280 | One query with a prefix and a cursor returns the next keys of the scope. |
| `Pagination.ScanScope` | python/ultimate_coders/context_outbox.py:185-193 | The cursor loop over one state ends having read every key in scope once, in key order. |
| `ScanRuns.ScanAscends` | python/ultimate_coders/context_outbox.py:185-193 | Whatever changes between the queries of a scan, the keys read ascend, so none is read twice. |
| `ScanRuns.ScanReadsWhatWasThere` | python/ultimate_coders/context_outbox.py:185-193 | Every key read was in scope when some query looked. |
| `ScanRuns.ScanMissesNothingThatStays` | python/ultimate_coders/context_outbox.py:185-193 | A finished scan read every key that stayed in scope throughout. |
| `ScanRuns.ScanEnds` | python/ultimate_coders/context_outbox.py:185-193 | If finitely many keys ever come into scope, the scan ends after at most one query more than there are keys. |
| `ScanRuns.CountOfAChangingStore` | python/ultimate_coders/context_outbox.py:121-141 | A count over a changing store lies between the number of keys that stay and the number that ever come. |
| `Pagination.Total` | python/ultimate_coders/context_outbox.py:121-141 | Counts the records in scope of one state, whatever the page size. |
| `Pagination.PageKeys` | python/ultimate_coders/context_outbox.py:194-202 | One page of the time order after the anchor; an anchor outside the scope is an error. |
| `Pagination.PageIsNewest` | python/ultimate_coders/context_outbox.py:194-202 | Every page holds the newest of what is left to serve, in order. |
| `Pagination.Recent` | python/ultimate_coders/context_outbox.py:143-202 | Over one state: later records first and equal times by key, all in scope and after the anchor, and what is left out of a full page comes after all of it; an error exactly for a bad limit, an empty cursor or one outside the scope. |
| `Pagination.RestIsOlder` | python/ultimate_coders/context_outbox.py:194-202 | What follows an anchor is the sort of the records older than it and of nothing else. |
| `Pagination.NewerChangesDoNotShift` | python/ultimate_coders/context_outbox.py:170-177 | Records added, removed or re-stamped newer than an unchanged anchor leave the next page as it was. |
| `Pagination.WalkServesRemainder` | python/ultimate_coders/context_outbox.py:143-202 | The pages of a walk over a changing store join up with no gap and no repeat. |
| `Pagination.WalkServesTimeline` | python/ultimate_coders/context_outbox.py:143-202 | Walking until an empty page serves every record in scope once, later times first and equal times by key. |
| `AttemptLogs.TaskScopeIff` | python/ultimate_coders/context_outbox.py:53-64 | For all ids, the exact condition under which a task's prefix selects a key. |
| `AttemptLogs.SubtaskScopeIff` | python/ultimate_coders/context_outbox.py:53-64 | For all ids, the exact condition under which a subtask's prefix selects a key. |
| `AttemptLogs.ScopeIsExact` | python/ultimate_coders/context_outbox.py:53-64 | Among colon-free ids, both select exactly their own keys. |
| `AttemptLogs.AttemptKeysDiffer` | python/ultimate_coders/context_outbox.py:53-64 | Among colon-free ids, different attempts have different keys. |
| `AttemptLogs.ContextManifestOutbox.Record` | python/ultimate_coders/context_outbox.py:71-90 | A repeat of the same summary keeps the record and its time; a different one replaces both. |
| `AttemptLogs.ManifestIsTheLast` | python/ultimate_coders/context_outbox.py:71-90 | After any compiles the record holds the last summary, stamped when its last unbroken run began. |
| `AttemptLogs.ContextManifestOutbox.Recent` | python/ultimate_coders/context_outbox.py:143-202 | The page of manifests in scope, by descending recording time. |
| `AttemptLogs.DecisionRecordOutbox.RecordStart` | python/ultimate_coders/decision_record.py:97-139 | Writes the start facts of one key and keeps its verdict; equal facts keep their time. |
| `AttemptLogs.DecisionRecordOutbox.RecordTerminal` | python/ultimate_coders/decision_record.py:141-174 | Writes the verdict of one key and keeps its start facts. |
| `AttemptLogs.DecisionRecordOutbox.Recent` | python/ultimate_coders/decision_record.py:204-241 | The page of decisions in scope, by descending start time; one without a start counts as time zero. |
| `AttemptLogs.JoinHoldsBothHalves` | python/ultimate_coders/decision_record.py:97-174 | Whatever the order of writes, the record holds the last start facts stamped when they first appeared in their last unbroken run, and the last verdict. |
| `PathGlob.Compile` | scripts/check-workflow-inputs.py:192-199 | The loop builds the concatenation of the compiled segments. |
| `PathGlob.CompiledReadsBack` | scripts/check-workflow-inputs.py:192-200 | The compiled text, read as a regular expression, is the token list of the segments: escaping and replacement never straddle two characters. |
| `PathGlob.TokensMatchGlob` | scripts/check-workflow-inputs.py:172-200 | The token list accepts exactly what the segment glob selects. |
| `PathGlob.CoversWhatTheGlobSelects` | scripts/check-workflow-inputs.py:172-200 | An entry covers a path if and only if its segment glob selects it, or selects it without the newline that ends it; the equality shortcut never matters. |
| `PathGlob.StarStaysInSegment` | scripts/check-workflow-inputs.py:172-200 | Without a `**` segment: covered if and only if segment counts agree and each segment matches. |
| `PathGlob.DirectoryEntryCovers` | scripts/check-workflow-inputs.py:172-200 | A literal directory followed by `/**` covers exactly the paths that start with the directory and a slash. |
| `PathGlob.SplitJoin` | scripts/check-workflow-inputs.py:193 | Splitting a joined path gives the segments back. |
| `PathGlob.JoinSplit` | scripts/check-workflow-inputs.py:193 | Joining a split path gives the path back. |
| `PathGlob.UncoveredIsExact` | scripts/check-workflow-inputs.py:203-204 | The report lists, ascending and once each, the references that no entry covers. |

## Left out

- NATS, JetStream, gRPC and HTTP transport, heartbeats, registration, the dashboard: delivery, redelivery, acknowledgement and lost replies are steps that may happen.
- Orchestrator, contract registry, task store, graph store and gateway: a contract refusal is a step that may happen.
- SQL text, schema migration, connection pools, audit rows, PID probing: a live process always matches its own identity, and LIKE is case sensitive.
- `_metadata` of the record store: which field becomes which column is a parameter of the store, given per namespace; migrated rows are not modelled.
- Payload fields of events that neither the reducer nor the checkpoint manager reads, and the timestamps of events and snapshots.
- Hashes, digests and fingerprints: plain strings; the key functions that hash are not modelled.
- Rounding of floating-point time and token arithmetic: reals.
- Concurrent appends inside the checkpoint manager: `CheckpointProtocol` has them as steps, `CheckpointManager` runs one call at a time.
- The engine's fallback log and search cache, the model fallback chain, request priority, line ranges, and the other check scripts: they would only add easy members.
- Wrap-around of the request, token and event counters past 64 bits.
- RateLimiter.TokenBucket.Take: needs the amount to be there, or a positive rate and an amount within capacity, because otherwise the source loops forever.
- RateLimiter.WindowBound: estimates are not negative, because a negative estimate would fill the bucket past its capacity.
- RateLimiterRuns.ActiveBound: a slot is released only after it was counted, as the source asks of its callers; a release at zero wraps the count.
- Delivery.AttemptsNeverGoBack: excludes compaction, which drops the attempt; `Outbox.CompactKeepsSettledIff` says what is lost.
- Dispatch.RunsAtMostOncePlusLosses: needs claims that exclude each other (inference subtasks, or one host); `Dispatch.OtherHostRunsToo` shows the other case.
- Dispatch.SettledForever: excludes compaction; `Dispatch.CompactionLetsItRunAgain` shows what it does.
- CheckpointProtocol.RecoveryIsReplayInEveryRun: appends to one subject do not overlap; `CheckpointProtocol.PushAppliedIffPastCut` says what overlap costs.
- Pagination.Recent: reads one state; `ScanRuns` has the keys of a scan over a changing store, where the data of each key is as its own query saw it.
