# Agent actors: a verified model

This project models the parts of AgentBack where correctness depends on
interleaving, crashes or exact text, and proves what they promise:

- **The actor contract.** Four runtimes claim the same thing for one identity:
  turns are serial, a commit is whole, a remembered request is not applied
  twice, and a turn commits or times out, never both. `SerialSpec.dfy` states
  this once, on a *history* (the sequence of commits, timeouts and memory
  wipes): the committed state, the journal and the dedup window are functions
  of the history, and every action must be legal after the ones before it. Each
  runtime is a step system with adversarial interleaving, and an adapter
  refines the contract when, in every reachable state of every run, what it
  stores equals those functions and its history is legal.
  - `InProcessRuntime.dfy`: `InMemoryActorRuntime` and
    `EventSourcedActorRuntime`; `SeatChain.dfy`: their promise-chain seat.
  - `DurableObject.dfy`, `DurableObjectProof.dfy`, `DurableObjectTurns.dfy`,
    `DurableStorage.dfy`: the Durable Object actor and the storage it stands on.
  - `RedisScripts.dfy`, `RedisRuntime.dfy`, `RedisRuntimeProof.dfy`,
    `RedisTurns.dfy`, `Renewal.dfy`, `LeaseClock.dfy`: the Lua scripts call by
    call over a typed key store in which any call may raise and earlier writes
    stay, the lease protocol over any number of processes, and the renewal timer
    against a server with a clock.

  Safety alone would be met by a runtime that does nothing, so for each adapter
  there are also theorems that say what a call comes to: when exactly it commits,
  what a retry is told, what a timeout leaves, that every commit met its deadline
  by the clock, and that a turn left alone completes.
  - `Deadlines.dfy`: who records a timeout when turns call turns.
- **Journal delivery.** `JournalTail.dfy` (replay by position, then live tail,
  across reconnects) and `JournalConsumers.dfy` (persisted cursors of many
  consumers over one shared subscription, any number of processes that crash
  and start again).
- **Smaller pieces with a real refinement.** `TagIndex.dfy`, `StreamParsers.dfy`,
  `JsonText.dfy` and `Fingerprint.dfy`, `SeatKeys.dfy`, `Introspection.dfy`.
- `Basics.dfy`, `Options.dfy` and `Decimal.dfy` are shared: small facts; an option
  type; decimal text, the integers Redis accepts, and when zero-padding keeps
  numeric order.

`receive`, `initialState` and the schemas are uninterpreted and may fail or
never return. Code the source writes step by step is modelled as classes and
methods with loops, each tied by its contract to the function that the step
systems use.

## Where the code falls short of its own words

Each of these is proved: a concrete input or run, and the exact condition.

- **An in-process commit can be half done.** The new state is written before
  `structuredClone(result)`, and state, dedup entry and journal position before
  `structuredClone(event)`. A result that cannot be cloned leaves the state alone
  (`InProcessRuntime.PartialCommit`); an event that cannot be cloned fails the
  turn, yet leaves a gap in the journal, and its retry is answered as a success
  (`InProcessRuntime.PartialJournal`). `InProcessRuntime.CommitIsWholeIff` and
  `InProcessRuntime.StepKeepsIff` say exactly when.
- **`InProcessDoStorage.put` is not atomic.** A commit lands whole or not at all
  exactly when all its values, or not even the first, can be cloned
  (`DurableObject.CommitPutIsWholeIff`). A result that cannot be cloned leaves
  record, journal and index written without the dedup entry
  (`DurableObject.UncloneableResultStopsPut`), and a retry runs `receive` again
  (`DurableObjectProof.UncloneableResultIsUnfaithful`).
- **At 2^53 entries a Durable Object's journal counter stops** and the next event
  overwrites the last (`DurableObject.BatchIsExactIff`). Its 16-digit keys would
  order 10^16 entries (`DurableStorage.JournalListsInOrderIff`), so below that
  `readEvents` is always the journal (`DurableObjectProof.ReadEventsIsTheJournal`).
- **COMMIT_TURN stops halfway exactly when it is sent fewer events than it
  announces** and met no earlier refusal
  (`RedisScripts.CommitStopsHalfwayIff`); the runtime always sends as many.
- **Late renewal ticks stretch the lease** past the bound that punctual ticks keep
  exactly when some tick within the cap, with no two ticks before it a lease
  length apart, comes an interval or more after the deadline
  (`Renewal.ScheduleKeepsBoundIff`, `Renewal.LateTicksStretchTheLease`). A lease
  of at most 10 ms is not renewed in time (`Renewal.TicksBeatTheLeaseIff`).
- **A missed deadline is recorded twice** exactly when a handler it passes throws a
  timeout that names a frame still outside, such as an old timeout of its own
  request (`Deadlines.SecondRecordIff`, `Deadlines.RethrownTimeoutIsRecorded`).
- **A thrown consumer event does not always come back.** The comment at
  `packages/actors-redis/src/seat-journal-consumers.ts:220-222` says it does; it
  does if and only if no later event was on record when the subscription started
  (`JournalConsumers.ComesBackIff`, `JournalConsumers.ThrownCanBeLost`). The port
  (`packages/actors/src/types.ts:186-190`) says it is not retried.
- **`parseSSE` drops the pending event when the leftover is a lone carriage
  return** (`StreamParsers.LastLineMayBeOpenIff`), which the WHATWG standard
  would have dispatched (`StreamParsers.LoneCrsDiffer`).
- **The tag index misses bindings.** It agrees with the scan in every context
  exactly for regular expressions and for patterns with names that every accepted
  tag map has, up to the end or to a later name that none has
  (`TagIndex.AgreesIff`): not for the empty tag map, an entry that accepts an
  absent tag on its own (`TagIndex.OneTagAgreesIff`, `TagIndex.AbsentIsMissed`), or
  a wildcard string that did not go through `filterByTag`
  (`TagIndex.NameAgreesIff`, `TagIndex.WildcardStringIsMissed`). An array among
  the arguments of `Binding.tag` leaves the index stale when new names came
  before it (`TagIndex.ContextTagIndexer.Tag`).
- **The command fingerprint depends on key order** exactly for commands in which
  one object has two different keys that `localeCompare` calls equal
  (`Fingerprint.OrderIsIgnoredIff`, `Fingerprint.TiesShow`).

## Model

| member | source | states |
|---|---|---|
| `SerialSpec.CommitsChain` | packages/actors/src/types.ts:276-279 | In a legal history every commit applied `receive` to exactly what the commit before it wrote, the first one to an initial state |
| `SerialSpec.SerialIsSequential` | packages/actors/src/types.ts:276-279 | For a `receive` that computes a function, the committed state is that of running the committed commands one after the other |
| `SerialSpec.OneActionEach` | packages/actors/src/types.ts:276-279 | No invocation commits twice, times out twice, or does both |
| `SerialSpec.TimeoutsLeaveNoTrace` | packages/actors-redis/src/redis-actor-runtime.ts:191-196 | A timed-out turn changes neither state nor memory, so its request can commit later, and adds at most its own marker |
| `SerialSpec.JournalIsNumbered` | packages/actors/src/types.ts:103-105 | The journal a history describes has the positions 0, 1, 2, ... without gap or repeat, markers included |
| `SerialSpec.RepeatsAreFarApart` | packages/actors/src/in-memory-runtime.ts:306-311 | A request is applied again only after at least `dedupLimit` other commits |
| `SerialSpec.WindowIsDistinct` | packages/actors/src/in-memory-runtime.ts:306-311 | The remembered requests are all different |
| `SerialSpec.RepeatsNeedForgetting` | packages/actors-redis/src/redis-actor-runtime.ts:167-170 | With an expiring memory a request is applied again only if the memory expired in between |
| `InProcessRuntime.RunsAreSerial` | packages/actors/src/event-sourced-runtime.ts:140-225 | In every reachable state of every run in which no turn stops halfway, deadlines firing and abandoned turns running on included, the record is the one the history describes and the history is legal and deduplicated |
| `InProcessRuntime.StepKeeps` | packages/actors/src/in-memory-runtime.ts:237-315 | Every step of load, check, receive, commit, timer and release that does not stop halfway keeps that |
| `InProcessRuntime.StepKeepsIff` | packages/actors/src/event-sourced-runtime.ts:194-218 | A step breaks it exactly when a clone error cuts its writes short, save for a state written alone that could have been the first |
| `InProcessRuntime.HistoryOnlyGrows` | packages/actors/src/event-sourced-runtime.ts:140-225 | Later histories extend earlier ones and a record never disappears |
| `InProcessRuntime.ExpiredCallsAreHarmless` | packages/actors/src/in-memory-runtime.ts:339-354 | Nothing an expired call's abandoned action does reaches state, dedup or journal; its late `initialState` never resets a record |
| `InProcessRuntime.RepliesAreBacked` | packages/actors/src/in-memory-runtime.ts:254-263 | Every reply is the result of a commit of the same request and the same command fingerprint |
| `InProcessRuntime.CommitsAreInTime` | packages/actors/src/deadlines.ts:181-211 | A commit falls inside its own deadline and only the seat holder makes it |
| `InProcessRuntime.CommitsIff` | packages/actors/src/event-sourced-runtime.ts:181-222 | A resolved `receive` commits, and a waiting caller gets its result, exactly when neither timer nor clock passed the deadline and all that is stored can be cloned; otherwise the history stays and the caller gets a timeout or an error |
| `InProcessRuntime.CommitsFollowTheClock` | packages/actors/src/deadlines.ts:181-211 | Every commit of a run has an earlier start of its own and a `receive` that resolved no later than the deadline after it |
| `InProcessRuntime.RetriesAreAnswered` | packages/actors/src/in-memory-runtime.ts:254-268 | A retry of one of the last `dedupLimit` commits gets that commit's result, or an error for a different command; any other request computes on the committed state |
| `InProcessRuntime.TimeoutsAreRecorded` | packages/actors/src/event-sourced-runtime.ts:293-305 | A fired deadline is answered as a timeout and leaves, once the seat is freed, one journal entry where there is a journal |
| `InProcessRuntime.RejectionsLeaveNoTrace` | packages/actors/src/event-sourced-runtime.ts:140-225 | A rejected `receive` or `initialState` changes nothing but its caller's outcome |
| `InProcessRuntime.TurnCompletes` | packages/actors/src/event-sourced-runtime.ts:140-225 | From every reachable state with a free seat a new request that resolves in time commits once on the committed state, and its caller gets the result |
| `InProcessRuntime.SeatIsExclusive` | packages/actors/src/in-memory-runtime.ts:367-410 | At most one started call has not released |
| `InProcessRuntime.CommitIsWholeIff` | packages/actors/src/event-sourced-runtime.ts:194-218 | A finished turn moves the record without a commit exactly when, past its checks and with a state that can be cloned, its result cannot and the state is a new one, or an event cannot |
| `InProcessRuntime.PartialCommit` | packages/actors/src/event-sourced-runtime.ts:194-200 | A run whose state moved without a commit because the result could not be cloned |
| `InProcessRuntime.PartialJournal` | packages/actors/src/event-sourced-runtime.ts:205-218 | A run in which an event that cannot be cloned fails the turn but leaves state, result, earlier events and a used-up position, and a retry is answered as a success |
| `InProcessRuntime.StoredActor.Commit` | packages/actors/src/event-sourced-runtime.ts:194-222 | The commit's assignments, eviction and numbering loops leave exactly the next record, and say what a clone error of state, result or event leaves |
| `InProcessRuntime.StoredActor.AppendEvents` | packages/actors/src/event-sourced-runtime.ts:205-218 | The numbering loop takes a position before it clones: at the first event it cannot clone, the earlier ones stay and one position has no event |
| `InProcessRuntime.StoredActor.RecordTimedOutTurn` | packages/actors/src/event-sourced-runtime.ts:293-305 | The timeout record is one journal entry and touches neither state nor dedup |
| `SeatChain.CheckPart` | packages/actors/src/types.ts:30-46 | A part is accepted exactly when it has a non-blank character and no control character; blank parts are called empty, and otherwise the first control character is reported |
| `SeatChain.KeysAreDistinct` | packages/actors/src/in-memory-runtime.ts:30-32 | Accepted identities never share a seat key |
| `SeatChain.UncheckedKeysCollide` | packages/actors/src/types.ts:30-46 | Without the rule on control characters they can |
| `SeatChain.MutualExclusion` | packages/actors/src/in-memory-runtime.ts:367-410 | In any run two turns of one identity never hold the seat together |
| `SeatChain.SomeTurnCanGo` | packages/actors/src/in-memory-runtime.ts:367-410 | The queue never wedges: while a turn of an identity has not released, one no newer than it can take its next step |
| `SeatChain.StartsInOrder` | packages/actors/src/in-memory-runtime.ts:367-410 | Waiting for the one predecessor is waiting for every earlier turn of the identity, both ways |
| `SeatChain.FirstComeFirstServed` | packages/actors/src/event-sourced-runtime.ts:343-384 | A started turn finds all earlier turns of its identity started and finished |
| `SeatChain.TailsAreLive` | packages/actors/src/event-sourced-runtime.ts:343-384 | The tails map holds an identity exactly while it has a turn that has not released |
| `SeatChain.SeatTails.Queue` | packages/actors/src/in-memory-runtime.ts:373-379 | Queuing a turn keeps the chain's invariant and is the modelled arrival |
| `SeatChain.SeatTails.Free` | packages/actors/src/in-memory-runtime.ts:406-409 | Releasing keeps it and drops a tail only if it is the turn's own |
| `Deadlines.RecordedOnceIff` | packages/actors/src/deadlines.ts:100-111 | A missed deadline is recorded once, by its own frame, exactly when no later frame sees a failure that names that later frame |
| `Deadlines.SecondRecordIff` | packages/actors/src/deadlines.ts:100-111 | Turns of one chain holding different seats, that fails exactly when a handler given a failure throws a timeout naming a frame it still passes |
| `Deadlines.PlainHandlersRecordOnce` | packages/actors/src/deadlines.ts:100-111 | With handlers that throw no timeouts of their own a missed deadline in such a chain is always recorded once |
| `Deadlines.MarkersAreNamed` | packages/actors/src/event-sourced-runtime.ts:369-379 | The frames that record a failure are exactly those that see one naming them, once each, innermost first |
| `Deadlines.QuietIff` | packages/actors/src/deadlines.ts:100-111 | A failure is recorded by none exactly when no frame sees a failure naming it |
| `Deadlines.RethrownTimeoutIsRecorded` | packages/actors/src/deadlines.ts:100-111 | A rethrown old timeout of a turn's own request is recorded although its deadline never fired |
| `DurableStorage.RenderIsInjective` | packages/actors-do/src/actor-durable-object.ts:79-85 | Record, order, dedup and event keys never collide |
| `DurableStorage.JournalKeysAscend` | packages/actors-do/src/actor-durable-object.ts:79-81 | Key order is position order below 10^16 |
| `DurableStorage.JournalListsInOrderIff` | packages/actors-do/src/actor-durable-object.ts:73-81 | Text order of the event keys is commit order exactly while the journal holds at most 10^16 entries |
| `DurableStorage.PutIsAtomicIff` | packages/actors-do/src/in-process-host.ts:32-36 | The in-process batch lands whole or not at all exactly when all its values, or not even the first, can be cloned |
| `DurableStorage.InProcessStorage.Put` | packages/actors-do/src/in-process-host.ts:32-36 | What is stored after a batch that stops at a value it cannot clone |
| `DurableStorage.InProcessStorage.Delete` | packages/actors-do/src/in-process-host.ts:38-44 | Exactly the named keys are gone, and the count is right |
| `DurableStorage.InProcessStorage.List` | packages/actors-do/src/in-process-host.ts:46-53 | Exactly the entries whose key has the prefix, each with its value, in text order of their keys |
| `DurableStorage.WithoutRemovesThose` | packages/actors-do/src/in-process-host.ts:38-44 | Deleting one by one removes exactly the listed keys |
| `DurableObject.PushAndEvict` | packages/actors-do/src/actor-durable-object.ts:390-394 | The push and shift loop leaves the window and evicts exactly the rest |
| `DurableObject.BuildBatch` | packages/actors-do/src/actor-durable-object.ts:390-412 | The numbering loop fills the one multi-key batch a commit should write |
| `DurableObject.BatchIsExactIff` | packages/actors-do/src/actor-durable-object.ts:396-407 | A commit numbers its events on from the record and leaves the counter behind them exactly while the counter, a JavaScript number, stays within 2^53; past that the next event overwrites one of them |
| `DurableObject.CloneablePutIsWhole` | packages/actors-do/src/in-process-host.ts:32-36 | On the in-process host a commit whose values can all be cloned is stored as the whole batch |
| `DurableObject.CommitPutIsWholeIff` | packages/actors-do/src/in-process-host.ts:32-36 | There a commit lands whole or not at all, whatever it meets, exactly when all its values can be cloned or the first cannot |
| `DurableObject.UncloneableResultStopsPut` | packages/actors-do/src/actor-durable-object.ts:396-413 | There a result that cannot be cloned leaves everything written but the dedup entry |
| `DurableObjectProof.RunsAreSerial` | packages/actors-do/src/actor-durable-object.ts:219-434 | In every reachable state of every run, storage is what the history says and the history is legal and deduplicated, although load, receive and commit are separate asynchronous phases and writes may fail or lose their reply, while the journal counter is at most 2^53 |
| `DurableObjectProof.StepKeeps` | packages/actors-do/src/actor-durable-object.ts:219-434 | Each storage call, race outcome and section entry keeps that |
| `DurableObjectProof.HistoryOnlyGrows` | packages/actors-do/src/actor-durable-object.ts:219-434 | Later histories extend earlier ones |
| `DurableObjectProof.SeatIsExclusive` | packages/actors-do/src/actor-durable-object.ts:219-286 | At most one started turn has not left |
| `DurableObjectProof.RecordNeverVanishes` | packages/actors-do/src/actor-durable-object.ts:383-388 | The error "vanished before commit" cannot occur |
| `DurableObjectProof.CommitOverwritesWhatItRead` | packages/actors-do/src/actor-durable-object.ts:368-434 | The state a commit overwrites is the one its `receive` was given, and its request has no dedup entry |
| `DurableObjectProof.ExpiredTurnsWriteNoMore` | packages/actors-do/src/actor-durable-object.ts:288-359 | A turn that lost its race writes at most a first record into an empty store |
| `DurableObjectProof.RepliesAreBacked` | packages/actors-do/src/actor-durable-object.ts:297-307 | Every reply is the result of a commit of the same request and fingerprint |
| `DurableObjectProof.JournalKeysAreExact` | packages/actors-do/src/actor-durable-object.ts:396-413 | The event keys in storage are exactly positions 0 to seq - 1, each holding its own position |
| `DurableObjectProof.ReadEventsIsTheJournal` | packages/actors-do/src/actor-durable-object.ts:212-217 | In every reachable state listing the event keys gives the journal of the history, in commit order |
| `DurableObjectProof.DedupIndexIsTheWindow` | packages/actors-do/src/actor-durable-object.ts:389-431 | The order index is exactly the last `dedupLimit` committed requests, distinct, each with its entry; entries left by a failed eviction still replay their own last commit |
| `DurableObjectProof.UncloneableResultIsUnfaithful` | packages/actors-do/src/actor-durable-object.ts:297-307 | No history explains that store: the index lists a request without an entry, and its retry goes on to `receive` |
| `DurableObjectTurns.EnterCommitIff` | packages/actors-do/src/actor-durable-object.ts:376-382 | At the commit boundary a turn goes on exactly when the clock is within the deadline of its own start, and is otherwise a timeout that writes nothing |
| `DurableObjectTurns.CommitsFollowTheClock` | packages/actors-do/src/actor-durable-object.ts:219-286 | Every commit of a run was put by a turn that had started, and then entered the commit section, within its deadline |
| `DurableObjectTurns.DecidesIff` | packages/actors-do/src/actor-durable-object.ts:320-330 | A resolved turn goes on to its commit exactly when it has at most 100 events |
| `DurableObjectTurns.RetriesAreAnswered` | packages/actors-do/src/actor-durable-object.ts:297-307 | A retry of one of the last `dedupLimit` commits gets that commit's result, or an error for a different command; a request without an entry computes |
| `DurableObjectTurns.TimeoutsAreRecorded` | packages/actors-do/src/actor-durable-object.ts:436-461 | With storage at hand a timed-out turn leaves one marker at the counter, state untouched, before it leaves the seat |
| `DurableObjectTurns.TimerExpires` | packages/actors-do/src/actor-durable-object.ts:235-245 | A fired deadline is a timeout whose marker can be written as soon as the section is free |
| `DurableObjectTurns.FailuresLeaveNoTrace` | packages/actors-do/src/actor-durable-object.ts:288-359 | A turn that fails before its commit changes nothing but its caller's outcome |
| `DurableObjectTurns.TurnCompletes` | packages/actors-do/src/actor-durable-object.ts:219-434 | A new request that finds the object idle and resolves in time commits once on the stored state, its caller gets the result, and the eviction leaves only listed entries |
| `RedisScripts.Redis.AcquireLease` | packages/actors-redis/src/redis-actor-runtime.ts:51-54 | A lease is granted exactly when it is free, and otherwise nothing changes |
| `RedisScripts.Redis.RenewLease` | packages/actors-redis/src/redis-actor-runtime.ts:56-59 | Only the holder extends its lease, to its whole length, and is told so |
| `RedisScripts.Redis.ReleaseLease` | packages/actors-redis/src/redis-actor-runtime.ts:61-64 | Only the holder frees it |
| `RedisScripts.AcquireIs` | packages/actors-redis/src/redis-actor-runtime.ts:51-54 | A granted acquire sets the token for the lease length and touches no other key; a refused one changes nothing |
| `RedisScripts.RenewIs` | packages/actors-redis/src/redis-actor-runtime.ts:56-59 | The holder's renewal sets the whole lease length again and nothing else; anyone else's changes nothing |
| `RedisScripts.ReleaseIs` | packages/actors-redis/src/redis-actor-runtime.ts:61-64 | After the holder's release an acquire with any token is granted; anyone else's changes nothing |
| `RedisScripts.Redis.CommitTurn` | packages/actors-redis/src/redis-actor-runtime.ts:157-189 | Call by call, with any call free to raise, the script answers and leaves what `CommitScript` says |
| `RedisScripts.Redis.AppendEvents` | packages/actors-redis/src/redis-actor-runtime.ts:171-187 | The XADD loop appends exactly the numbered events and raises only on a missing argument |
| `RedisScripts.Redis.StoreTurn` | packages/actors-redis/src/redis-actor-runtime.ts:166-170 | After the counter no call of the state and dedup writes can raise |
| `RedisScripts.Redis.AppendTurnFailure` | packages/actors-redis/src/redis-actor-runtime.ts:229-248 | The same for the timeout marker |
| `RedisScripts.CommitIsAllOrNothing` | packages/actors-redis/src/redis-actor-runtime.ts:157-189 | For every prior type and content of the keys, either nothing is written or everything moves, exactly when the lease is held and the checks pass |
| `RedisScripts.CommitAnswersIff` | packages/actors-redis/src/redis-actor-runtime.ts:157-163 | The commit script answers 0 exactly without the lease and -1 exactly to the holder over keys of other types, changing nothing |
| `RedisScripts.WrittenByKey` | packages/actors-redis/src/redis-actor-runtime.ts:164-187 | A commit past its checks moves state, dedup, counter, journal and time to live, and no other key |
| `RedisScripts.WrittenTtl` | packages/actors-redis/src/redis-actor-runtime.ts:166-170 | A commit drops the state's time to live, sets the dedup record's if asked to, and leaves the others |
| `RedisScripts.MarkerByKey` | packages/actors-redis/src/redis-actor-runtime.ts:229-248 | A marker moves the counter by one and appends one entry at the old count, capped, and nothing else |
| `RedisScripts.FailureAnswersIff` | packages/actors-redis/src/redis-actor-runtime.ts:229-248 | The marker script answers -1 exactly over a log of another type and 1 exactly when it wrote |
| `RedisScripts.CapHolds` | packages/actors-redis/src/redis-actor-runtime.ts:171-187 | A capped log keeps exactly its newest entries, never more than the cap |
| `RedisScripts.CommitStopsHalfwayIff` | packages/actors-redis/src/redis-actor-runtime.ts:161-187 | The script leaves a partial commit exactly when it announces more events than it got and meets no refusal |
| `RedisScripts.EntriesGrow` | packages/actors-redis/src/redis-actor-runtime.ts:171-187 | Trimming on every append leaves what one trim at the end would |
| `RedisScripts.SecondsReachExpire` | packages/actors-redis/src/redis-actor-runtime.ts:943-957 | An accepted time to live passes the script's guard, unchanged, exactly when it is at least one second |
| `RedisScripts.CountReachesMaxlen` | packages/actors-redis/src/redis-actor-runtime.ts:959-966 | An accepted journal cap reaches XADD unchanged; an unset one never does |
| `Decimal.PositiveIntOfShow` | packages/actors-redis/src/redis-actor-runtime.ts:95-98 | A printed number passes `positiveInt` exactly when it is between 1 and 10^18 - 1 |
| `Decimal.PositiveIntIsInteger` | packages/actors-redis/src/redis-actor-runtime.ts:95-98 | Every text that passes is one Redis reads as that integer |
| `Decimal.PaddedOrder` | packages/actors-do/src/actor-durable-object.ts:79-81 | Zero-padded decimals of the same width order as their numbers |
| `Decimal.PaddingRunsOut` | packages/actors-do/src/actor-durable-object.ts:79-81 | One digit more than the width breaks that order |
| `RedisRuntimeProof.RunsAreSerial` | packages/actors-redis/src/redis-actor-runtime.ts:508-652 | For any number of processes, expiring leases, lost replies, late scripts and stalled turns, Redis holds what the history says and the history is legal, while the counter is below 2^53 |
| `RedisRuntimeProof.StepKeeps` | packages/actors-redis/src/redis-actor-runtime.ts:508-652 | Every step keeps that |
| `RedisRuntimeProof.LostTokensStayLost` | packages/actors-redis/src/redis-actor-runtime.ts:46-64 | A token once lost is never current again: a turn whose token is current at commit held the lease ever since it acquired it |
| `RedisRuntimeProof.HeldBefore` | packages/actors-redis/src/redis-actor-runtime.ts:51-64 | A step makes a token current only if it was, or as that turn's first acquire of a free lease |
| `RedisRuntimeProof.CommitOverwritesWhatItRead` | packages/actors-redis/src/redis-actor-runtime.ts:157-167 | A commit that lands applied `receive` to exactly the state it overwrites, and its request was not in the dedup hash |
| `RedisRuntimeProof.CommitOrTimeout` | packages/actors-redis/src/redis-actor-runtime.ts:570-609 | No invocation both commits and times out, or does either twice |
| `RedisRuntimeProof.HistoryOnlyGrows` | packages/actors-redis/src/redis-actor-runtime.ts:508-652 | Later histories extend earlier ones |
| `RedisRuntimeProof.RepliesAreBacked` | packages/actors-redis/src/redis-actor-runtime.ts:522-650 | Every reply is the result of a commit of the same request and fingerprint |
| `RedisRuntimeProof.JournalIsContiguous` | packages/actors-redis/src/redis-actor-runtime.ts:164-187 | Under any mix of caps, commits and markers the stream is a contiguous run of positions ending at counter - 1 |
| `RedisRuntimeProof.DedupIsBacked` | packages/actors-redis/src/redis-actor-runtime.ts:522-531 | What the dedup hash returns was committed with that fingerprint and result |
| `RedisTurns.CommitLandsIff` | packages/actors-redis/src/redis-actor-runtime.ts:157-189 | In every reachable state a commit lands, and says so, exactly when the lease holds its own token; otherwise it is told the lease is lost and nothing changes |
| `RedisTurns.ReplyFollowsTheScript` | packages/actors-redis/src/redis-actor-runtime.ts:637-652 | The caller gets the result exactly when the script answered that it landed |
| `RedisTurns.DecidesIff` | packages/actors-redis/src/redis-actor-runtime.ts:601-609 | A resolved turn goes on to its commit exactly when the clock is within its deadline, and is otherwise recorded as a timeout |
| `RedisTurns.CommitsFollowTheClock` | packages/actors-redis/src/redis-actor-runtime.ts:522-609 | Every commit of a run is of a turn that resolved within its deadline, counted from after its dedup check |
| `RedisTurns.RetriesAreAnswered` | packages/actors-redis/src/redis-actor-runtime.ts:522-531 | A retry of a commit not forgotten since gets its result, or an error for a different command; a request without a field goes on |
| `RedisTurns.TimeoutsAreRecorded` | packages/actors-redis/src/redis-actor-runtime.ts:229-248 | In every reachable state a marker that runs is journaled at the counter, whoever holds the lease |
| `RedisTurns.RenewalIs` | packages/actors-redis/src/redis-actor-runtime.ts:792-811 | A turn's renewal gives its lease the whole length again while its token is current, and else does nothing |
| `RedisTurns.AcquireRunsIs` | packages/actors-redis/src/redis-actor-runtime.ts:51-54 | An acquire is granted exactly on a free lease, for its whole length, also when its reply is lost or late |
| `RedisTurns.FailuresWriteNothing` | packages/actors-redis/src/redis-actor-runtime.ts:508-652 | A failure outside the scripts writes nothing, and only a timeout of the turn's own goes to the marker |
| `RedisTurns.TurnCompletes` | packages/actors-redis/src/redis-actor-runtime.ts:508-652 | From every reachable state with a free lease a new request that resolves in time commits once on the stored state, its caller gets the result, and the lease is free again |
| `Renewal.RenewalsCoverTheDeadline` | packages/actors-redis/src/redis-actor-runtime.ts:784-811 | deadlineMs <= maxRenewals * interval < deadlineMs + interval |
| `Renewal.HeldWithoutAGap` | packages/actors-redis/src/redis-actor-runtime.ts:784-811 | With punctual ticks the lease is live at a time exactly when that is before the last renewal plus its length |
| `Renewal.SeatIsBounded` | packages/actors-redis/src/redis-actor-runtime.ts:784-811 | For leases above 10 ms and dedup reads shorter than a lease it outlives the deadline, which starts after that read, and it is claimable less than an interval and a lease after a deadline that had started at once |
| `Renewal.TicksBeatTheLeaseIff` | packages/actors-redis/src/redis-actor-runtime.ts:784-811 | A tick precedes expiry exactly for leases above 10 ms |
| `Renewal.PunctualTicks` | packages/actors-redis/src/redis-actor-runtime.ts:784-811 | After n punctual ticks: when the lease ends, how many renewals, and that only the cap tick flags it lost |
| `Renewal.CapTickFollowsDeadline` | packages/actors-redis/src/redis-actor-runtime.ts:784-811 | The cap tick comes after the deadline when the dedup read takes less than one interval, and for deadlines of whole intervals only then |
| `Renewal.AnyScheduleIsBounded` | packages/actors-redis/src/redis-actor-runtime.ts:784-811 | Whatever its ticks, a holder has the lease until one length after the last tick that renewed, and at most (maxRenewals + 1) lengths |
| `Renewal.BoundHoldsIff` | packages/actors-redis/src/redis-actor-runtime.ts:784-811 | The bound of punctual ticks holds for a schedule exactly when its last renewing tick comes before the deadline and one interval |
| `Renewal.ScheduleKeepsBoundIff` | packages/actors-redis/src/redis-actor-runtime.ts:784-811 | Read off the schedule: exactly when no tick within the cap and with no lease-long gap before it is that late |
| `Renewal.RenewsIff` | packages/actors-redis/src/redis-actor-runtime.ts:792-811 | A tick renews exactly when it is within the cap and no two ticks up to it are a lease length apart |
| `Renewal.LateTicksStretchTheLease` | packages/actors-redis/src/redis-actor-runtime.ts:784-811 | Late ticks keep the lease beyond the punctual bound |
| `Renewal.LeaseTimer.OnTick` | packages/actors-redis/src/redis-actor-runtime.ts:792-811 | The interval callback is the modelled tick |
| `LeaseClock.LeaseEndsWithTheTimer` | packages/actors-redis/src/redis-actor-runtime.ts:784-811 | Run against the scripts on a server with a clock, under any schedule of ticks the token is current exactly until the end the timer accounts for, and then the lease is free |
| `LeaseClock.LostIff` | packages/actors-redis/src/redis-actor-runtime.ts:792-811 | A tick flags the lease lost exactly past the cap or when its renewal does not find its token |
| `JournalTail.TailIsExact` | packages/actors-redis/src/stream-subscriber.ts:117-157 | Without trimming, what the handler was given is at all times exactly the journal between the resume point and the cursor: no gap, no repeat, in order |
| `JournalTail.TailAscends` | packages/actors-redis/src/stream-subscriber.ts:117-222 | With trimming it is still strictly ascending and misses only what was trimmed |
| `JournalTail.HandoversSkipOnlyTrimmed` | packages/actors-redis/src/stream-subscriber.ts:191-222 | An event handed over follows the cursor directly, or everything between is gone |
| `JournalTail.CaughtUp` | packages/actors-redis/src/stream-subscriber.ts:117-157 | Once read to the end, no retained event past the resume point is outstanding |
| `JournalTail.CatchesUp` | packages/actors-redis/src/stream-subscriber.ts:117-157 | From every reachable open state, after failures too, a subscription left alone reads to the end and has handed over every retained event past its resume point |
| `JournalTail.NextEventIsHandedOver` | packages/actors-redis/src/stream-subscriber.ts:138-146 | Once caught up, the next event is handed over once, as soon as it is read, throw or not |
| `JournalTail.FailureReadsAgain` | packages/actors-redis/src/stream-subscriber.ts:147-155 | After a failure the whole retained journal is read again and the cursor stays |
| `JournalTail.ClosedIsQuiet` | packages/actors-redis/src/stream-subscriber.ts:117-157 | A closed subscription hands over nothing more |
| `JournalTail.OfferAllIsTheRest` | packages/actors-redis/src/stream-subscriber.ts:191-222 | Offering a stretch of the journal hands over exactly the part past the cursor |
| `JournalTail.StepKeeps` | packages/actors-redis/src/stream-subscriber.ts:117-222 | Every append, trim, discovery, replay, live read, offer and failure keeps the invariant |
| `JournalTail.JournalSubscription.Offer` | packages/actors-redis/src/stream-subscriber.ts:191-222 | One entry: skipped if unreadable or covered, else handed over and the cursor moved, throw or not |
| `JournalTail.JournalSubscription.Replay` | packages/actors-redis/src/stream-subscriber.ts:176-188 | A replay hands over exactly the readable entries past the cursor |
| `JournalTail.JournalSubscription.ReadLive` | packages/actors-redis/src/stream-subscriber.ts:138-146 | A live read does the same and moves the read position with every entry |
| `JournalTail.JournalSubscription.Reconnect` | packages/actors-redis/src/stream-subscriber.ts:147-155 | A failed loop forgets every read position and keeps every cursor |
| `JournalConsumers.RecordedWasHandled` | packages/actors-redis/src/seat-journal-consumers.ts:254-274 | A persisted cursor stands on a handled event and everything up to it was handled, thrown or trimmed, over crashes and lost or late writes |
| `JournalConsumers.HandledIsAPrefix` | packages/actors-redis/src/seat-journal-consumers.ts:183-228 | With nothing trimmed, what a consumer that never throws handled over all runs is a gap-free prefix |
| `JournalConsumers.NothingIsMissed` | packages/actors-redis/src/seat-journal-consumers.ts:183-228 | What a process is past was handled, thrown or trimmed for every consumer |
| `JournalConsumers.ComesBackIff` | packages/actors-redis/src/seat-journal-consumers.ts:220-225 | After a new process or a new start of the same host object, a retained event goes to a handler again exactly when the cursor its subscription started with was below it |
| `JournalConsumers.ThrownCanBeLost` | packages/actors-redis/src/seat-journal-consumers.ts:220-225 | A run with a retained event that was thrown, never handled, and skipped by the next process |
| `JournalConsumers.WarningsAreRetention` | packages/actors-redis/src/seat-journal-consumers.ts:196-219 | The retention warning is raised only when everything before the event is gone |
| `JournalConsumers.WarnsIff` | packages/actors-redis/src/seat-journal-consumers.ts:196-219 | In a process not stopped since it started, the warning is raised exactly when the cursor is more than one below the event and the event before it did not come |
| `JournalConsumers.EventReachesAll` | packages/actors-redis/src/seat-journal-consumers.ts:183-228 | An event taken by an idle process reaches every consumer whose cursor does not cover it, and moves and sends those cursors |
| `JournalConsumers.LandedIsLoaded` | packages/actors-redis/src/seat-journal-consumers.ts:277-320 | A cursor write that lands is where the next process that can read it starts, so nothing up to it comes again |
| `JournalConsumers.Earliest` | packages/actors-redis/src/seat-journal-consumers.ts:167-176 | The shared start is at or below every consumer's cursor, and is one of them |
| `JournalConsumers.StepKeeps` | packages/actors-redis/src/seat-journal-consumers.ts:183-320 | Boots, restarts, deliveries, throws, deaths and landing writes keep the invariant |
| `JournalConsumers.CursorMovesIff` | packages/actors-redis/src/seat-journal-consumers.ts:183-228 | A cursor moves to an event exactly when the event is new to it and its handler returns |
| `JournalConsumers.SeatJournalConsumerHost.EarliestCursor` | packages/actors-redis/src/seat-journal-consumers.ts:167-176 | The loop computes the shared start, one missing cursor making it the whole journal |
| `JournalConsumers.SeatJournalConsumerHost.Deliver` | packages/actors-redis/src/seat-journal-consumers.ts:183-228 | The dispatch loop moves exactly those cursors, records every offer, and sends one write for each moved cursor, in order |
| `TagIndex.AgreesIff` | packages/context/src/context-tag-indexer.ts:89-140 | The index agrees with the scan in every context exactly for regular expressions, and for patterns with names of which every accepted tag map has each, up to the end or to a later name that no accepted tag map has |
| `TagIndex.TagMapFindsExactly` | packages/context/src/context-tag-indexer.ts:89-140 | A non-empty tag map that rejects absent tags finds exactly the bound bindings that hold each tag with that very value, or with the matcher's consent |
| `TagIndex.NamesFindExactly` | packages/context/src/binding-filter.ts:186-191 | A plain name finds exactly the bound bindings with that tag, a regular expression those with a tag name it accepts |
| `TagIndex.GlobSplits` | packages/context/src/binding-filter.ts:239-248 | A wildcard pattern in two parts matches exactly the texts that split into two they match |
| `TagIndex.GlobOne` | packages/context/src/binding-filter.ts:239-248 | `*` matches any run and `?` any one of the characters other than dot and colon, every other character itself |
| `TagIndex.OrdinaryPatternsAgree` | packages/context/src/binding-filter.ts:163-213 | Plain names, stateless regexes and non-empty tag maps that reject absent tags are found exactly |
| `TagIndex.OneTagAgreesIff` | packages/context/src/binding-filter.ts:201-213 | A tag map of one entry is found exactly in every context if and only if the entry rejects an absent tag |
| `TagIndex.NameAgreesIff` | packages/context/src/context-tag-indexer.ts:105-106 | A string is found exactly in every context if and only if it has no wildcard |
| `TagIndex.ValuesRejectAbsentIff` | packages/context/src/binding-filter.ts:201-213 | A plain value rejects absent tags exactly when it is not `undefined` |
| `TagIndex.AbsentIsMissed` | packages/context/src/binding-filter.ts:201-213 | Any entry that accepts an absent tag, asked for alone, misses a binding |
| `TagIndex.WildcardStringIsMissed` | packages/context/src/context-tag-indexer.ts:105-106 | A wildcard string looked up as it stands misses what its regular expression finds |
| `TagIndex.ContextTagIndexer.FindByTagIndex` | packages/context/src/context-tag-indexer.ts:89-140 | The loops with their early breaks compute the lookup that `AgreesIff`, `TagMapFindsExactly` and `NamesFindExactly` describe |
| `TagIndex.ContextTagIndexer.FindUnion` | packages/context/src/context-tag-indexer.ts:95-138 | For a regular expression the union over matching names is the scan |
| `TagIndex.ContextTagIndexer.FindIntersection` | packages/context/src/context-tag-indexer.ts:105-139 | For names and tag maps: the accepted bindings carrying every name up to the first fruitless one |
| `TagIndex.ContextTagIndexer.UpdateTagIndexForBinding` | packages/context/src/context-tag-indexer.ts:73-83 | A binding is then listed under exactly its tag names and the others are untouched |
| `TagIndex.ContextTagIndexer.RemoveTagIndexForBinding` | packages/context/src/context-tag-indexer.ts:63-67 | A binding is then listed nowhere and the others are untouched |
| `TagIndex.ContextTagIndexer.Bind` | packages/context/src/context-tag-indexer.ts:44-49 | Binding keeps the index in step with all bindings |
| `TagIndex.ContextTagIndexer.Unbind` | packages/context/src/context-tag-indexer.ts:50-53 | Unbinding keeps it |
| `TagIndex.ContextTagIndexer.Tag` | packages/context/src/binding.ts:667-682 | Tagging keeps it unless it throws after adding a new name to a bound binding |
| `TagIndex.LastArgumentDecides` | packages/context/src/binding.ts:667-682 | The last argument naming a tag decides its value, and a name stands for itself |
| `StreamParsers.ParseSSE` | packages/client/src/sse.ts:18-74 | For every split into chunks the incremental loop emits what reading the whole text emits |
| `StreamParsers.ParseNDJSON` | packages/client/src/ndjson.ts:12-40 | The same for newline-delimited JSON |
| `StreamParsers.FieldIs` | packages/client/src/sse.ts:42-45 | The name is what precedes the first colon, the value what follows it less one leading space; without a colon the value is empty |
| `StreamParsers.FieldIsStandard` | packages/client/src/sse.ts:42-45 | The parser splits a line as section 9.2.6 of the WHATWG HTML standard does |
| `StreamParsers.LastLineMayBeOpenIff` | packages/client/src/sse.ts:66-70 | Closing the last line changes nothing exactly unless the leftover is a lone carriage return and an event is pending |
| `StreamParsers.AgreesWithStandard` | packages/client/src/sse.ts:39-70 | Where every carriage return belongs to a CRLF, the events are those of section 9.2.6 of the WHATWG HTML standard for the text closed by a blank line |
| `StreamParsers.LoneCrsDiffer` | packages/client/src/sse.ts:61-70 | After whole lines, a lone carriage return makes the standard dispatch the pending event and the parser lose it |
| `StreamParsers.FramesRoundTrip` | packages/rest/src/stream-framers.ts:34-52 | Whatever chunks the server's frames arrive in, the client reads back its items and its error, in order |
| `StreamParsers.MessagesRoundTrip` | packages/client/src/sse.ts:39-70 | Events of any number of data lines, named or not, with or without a space after the colon, are read back whatever chunks they arrive in |
| `StreamParsers.RecordsRoundTrip` | packages/rest/src/stream-framers.ts:62-78 | The same for newline-delimited records, with either line end |
| `StreamParsers.PrintedJsonFits` | packages/rest/src/stream-framers.ts:41-51 | What `JSON.stringify` prints never breaks a frame |
| `JsonText.PrintIsInjective` | packages/actors/src/in-memory-runtime.ts:64 | Two JSON values print alike exactly when they are equal |
| `JsonText.Unique` | packages/actors/src/in-memory-runtime.ts:64 | A printed value is readable in only one way inside any text |
| `JsonText.IsPrintable` | packages/actors/src/in-memory-runtime.ts:64 | Printed JSON has no control character |
| `Fingerprint.FingerprintIsExact` | packages/actors/src/in-memory-runtime.ts:35-65 | A command in which no object has two keys that compare equal shares its fingerprint with exactly the commands equal to it up to key order at every depth |
| `Fingerprint.NeverTooCoarse` | packages/actors/src/in-memory-runtime.ts:35-65 | Whatever the comparator, different commands never share a fingerprint |
| `Fingerprint.OrderIsIgnoredIff` | packages/actors/src/in-memory-runtime.ts:56-60 | Key order never matters for a command if and only if no object in it, at any depth, has two different non-index keys that compare equal |
| `Fingerprint.OrderIsAlwaysIgnoredIff` | packages/actors/src/in-memory-runtime.ts:56-60 | It never matters for any command if and only if the comparator tells distinct non-index keys apart |
| `Fingerprint.TiesShow` | packages/actors/src/in-memory-runtime.ts:56-60 | Two keys the comparator calls equal give one command two fingerprints |
| `Fingerprint.IndicesAre` | packages/actors/src/in-memory-runtime.ts:56-60 | The keys an object lists first are exactly the printed numbers up to 2^32 - 2 |
| `Fingerprint.SortedIsUnique` | packages/actors/src/in-memory-runtime.ts:56-60 | There is one canonical listing of properties whose keys are not tied, array-index keys first |
| `Fingerprint.SortSorts` | packages/actors/src/in-memory-runtime.ts:58 | The sort orders the entries |
| `Fingerprint.SortKeeps` | packages/actors/src/in-memory-runtime.ts:58 | The sort keeps exactly the entries it was given |
| `Fingerprint.SortKeepsOrder` | packages/actors/src/in-memory-runtime.ts:58 | The sort is stable: entries that may stay in their order do |
| `SeatKeys.CreatorsAgree` | packages/actors-redis/src/seat-key-store.ts:91-124 | Over all interleavings all creators for one actor return the same key id |
| `SeatKeys.CreateCompletes` | packages/actors-redis/src/seat-key-store.ts:91-124 | A create whose replies arrive ends with the actor's one key, its own candidate when the actor had none |
| `SeatKeys.KeysHaveOneOwner` | packages/actors-redis/src/seat-key-store.ts:27-33 | Every index entry has its record and no two actors share a key |
| `SeatKeys.ClaimsResolve` | packages/actors-redis/src/seat-key-store.ts:117-122 | The error "resolved to a missing record" cannot be raised |
| `SeatKeys.CustodyLeavesOnce` | packages/actors-redis/src/seat-key-store.ts:154-184 | At most one call ever returns a key's private half, and it is the one that was generated |
| `SeatKeys.FailedDecryptsMarkNothing` | packages/actors-redis/src/seat-key-store.ts:154-184 | A record is marked exactly when an earlier mark ran for a call that had opened that very key, on a record with no mark |
| `SeatKeys.MarkedOnce` | packages/actors-redis/src/seat-key-store.ts:174-184 | That mark is the only one, and its call took the key or lost its reply |
| `SeatKeys.CustodyAnswers` | packages/actors-redis/src/seat-key-store.ts:154-165 | Unknown, exported and unreadable keys are told apart, and exactly an unmarked record sealed under this store's key opens |
| `SeatKeys.MarkAnswers` | packages/actors-redis/src/seat-key-store.ts:166-184 | An answered mark takes the key exactly if nobody marked it before; the loser is told so |
| `SeatKeys.StillRetryable` | packages/actors-redis/src/seat-key-store.ts:138-152 | An unmarked intact key can still be taken, whatever failed before |
| `SeatKeys.StepKeeps` | packages/actors-redis/src/seat-key-store.ts:27-52 | Every claim, read, mark, lost reply and corruption keeps the invariant |
| `SeatKeys.ResultsStay` | packages/actors-redis/src/seat-key-store.ts:91-184 | Answers, index entries, records and marks are never taken back |
| `SeatKeys.InMemorySeatKeyStore.Create` | packages/actors/src/in-memory-seat-key-store.ts:55-78 | The single-process create is the atomic claim |
| `SeatKeys.InMemorySeatKeyStore.TakeCustody` | packages/actors/src/in-memory-seat-key-store.ts:89-109 | The single-process custody is read, open, mark, in that order, and a failure changes nothing |
| `SeatKeys.OneCallIsTheExchange` | packages/actors/src/in-memory-seat-key-store.ts:89-109 | That one call's mark cannot fail, bars every later call, and touches no other key |
| `Introspection.HitsAreFreshAnswers` | packages/authentication-oauth2/src/introspection.service.ts:46-57 | A hit repeats an active answer the endpoint gave for that very token less than the time to live earlier, and never at or past the token's numeric expiry |
| `Introspection.NeverTooMany` | packages/authentication-oauth2/src/introspection.service.ts:142-148 | The cache never holds more than the configured number of entries between steps |
| `Introspection.StoredIsFoundIff` | packages/authentication-oauth2/src/introspection.service.ts:131-148 | An answer worth keeping is found again exactly while it is within the time to live and before its own expiry, if anything may be kept at all |
| `Introspection.NextCallerHitsIff` | packages/authentication-oauth2/src/introspection.service.ts:46-116 | Exactly that long the next caller with the token is answered without asking the endpoint |
| `Introspection.RepliesAreTheEndpoints` | packages/authentication-oauth2/src/introspection.service.ts:84-116 | Without a hit the caller gets the claims of an active token, 401 for an inactive or empty answer, and 503 when the endpoint fails |
| `Introspection.DropsOnlyTheOldest` | packages/authentication-oauth2/src/introspection.service.ts:143-147 | Storing drops another entry only at capacity, and then the oldest |
| `Introspection.OAuth2IntrospectionService.Cached` | packages/authentication-oauth2/src/introspection.service.ts:53-57 | The lookup returns a live entry and deletes a stale one |
| `Introspection.OAuth2IntrospectionService.StoreActive` | packages/authentication-oauth2/src/introspection.service.ts:131-148 | The store bounds the lifetime, keeps a re-stored key's place and evicts one |

## Left out

- InProcessRuntime.RunsAreSerial: requires that no turn so far stopped halfway in its writes, and `dedupLimit >= 1`, which the constructor enforces; `InProcessRuntime.StepKeepsIff` says what happens otherwise.
- DurableObjectProof.RunsAreSerial: a multi-key `put` is applied whole or not at all, which on the in-process host takes values that can be cloned (`DurableObject.CommitPutIsWholeIff`); one that is reported as failed was applied at once or never, not later; the journal has at most 2^53 entries (`DurableObject.BatchIsExactIff`).
- RedisRuntimeProof.RunsAreSerial: requires lossless record texts, distinct lease tokens, exact Lua numbers, and a counter below 2^53.
- LeaseClock.LeaseEndsWithTheTimer: a renewal runs at its tick and nobody else touches the lease meanwhile; only the lease's time to live runs on this clock.
- JournalTail.TailIsExact: every entry can be read back; `JournalTail.JournalSubscription.Offer` says that others are skipped.
- JournalTail.CatchesUp: the subscription is left alone meanwhile; nothing says that it is.
- JournalConsumers.HandledIsAPrefix: requires that the consumer never throws and that nothing was trimmed, which is what the port promises.
- JournalConsumers.NothingIsMissed: the shared subscription hands over exactly what `JournalTail.HandoversSkipOnlyTrimmed` allows; one identity is modelled, cursors of different identities never meet.
- Fingerprint.FingerprintIsExact: the comparator is any total preorder, `localeCompare` not being modelled further; numbers are the texts JavaScript prints, so -0 (printed `0`) is not distinguished; unpaired surrogates and array holes do not occur.
- TagIndex.AgreesIff: tag names that are properties of `Object.prototype`, and matchers or expressions with state of their own, are not modelled.
- Introspection.HitsAreFreshAnswers: an `exp` that is not a number does not bound the cache, as in the code; the digest is taken to be collision free.
- Fairness and retries: a turn or subscription that is left alone completes, but nothing says that the platform leaves it alone.
- Zod schemas, decorators, dependency injection, registries and component wiring.
- Cryptography: sealing is ideal, digests do not collide.
- Real Redis, Durable Object and timer implementations beyond the semantics used; out-of-memory, exhausted stream ids, client-level resends, failover.
- A Durable Object asked to run another identity's turn: routing is taken to be correct.
- `EventSourcedActorRuntime.deliver` and its in-process subscribers: best effort by its own words.
- Providers plugged in or out while the consumer host runs, two providers of one name, and a delivery still running when the host is stopped.
- Iteration order of sets the tag index returns, parent contexts, and binding keys.
- UTF-8 decoding inside the stream parsers; `id:` and `retry:` fields are ignored as in the code.
- Logging, connection management, lifecycle observers and the identity index.
