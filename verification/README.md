# DevArena, modelled in Dafny

DevArena is a competitive-programming platform: players queue for opponents, meet in timed
battles, submit programs to a judge, gain and lose rating, and talk to each other through a
socket service. Its state lives in Redis structures and Postgres rows that several processes
change at once. This project models the parts where that is hard to get right and proves, for
all inputs, runs or schedules, what they keep.

| module | models |
|---|---|
| `Queue`, `Matchmaking`, `MatchRules` | the three queue structures and their scripts; the sweep, joins and friend matches over them; what players asked for and get |
| `BookingProtocol` | joins, leaves, friend matches and sweeps interleaved command by command |
| `QueueAgreement` | when the three queue structures agree under that interleaving, step by step |
| `BattleTypes`, `BattleLifecycle`, `BattleRules` | the battle engine, each service method as one step on record, row, timers, log and nonces; the rules of a battle as players know them |
| `BattleStoreProtocol` | the WATCH/MULTI loop, the lease lock and finalize, interleaved command by command |
| `NonceProtocol` | the nonce check's reading and writing, interleaved |
| `Text`, `Comparators`, `Judge`, `JudgeRules` | tokenizing and comparison; ordering, batching, early stop, verdicts and scoring; what verdicts and scores stand for |
| `Elo`, `RatingLedger`, `LedgerRules`, `IsoWeek` | rating arithmetic, the per-player books and boards, what each battle and each board amounts to, the calendar keys of the boards |
| `RateLimit`, `Connections`, `Rooms`, `RoomRules` | the socket service's event limiter, connection cap and rooms; who may do what to a room |
| `Overlap` | the coach's editorial-overlap detector and what the validator then shows |
| `Wrappers`, `StableSort`, `Numbers` | shared small types, a stable sort, real arithmetic |

Code that updates state in place is modelled by a class (`RedisQueueStore`, `MatchmakingService`,
`BattleEngine`, `RatingService`, `RateLimiter`, `ConnectionRegistry`, `RoomService`) whose methods
are proved against functions on snapshots; the laws are lemmas about those functions, and the `…Rules` modules
say what the functions decide in terms of their inputs alone. Code whose
commands interleave is modelled by a deterministic step function and a schedule, and a law holds
for every schedule. Clocks, generated ids, the execution engine, the parsing of numbers, lower-casing
and the power function of the rating curve are parameters.

## Where the code and its own description differ

The model follows the code; each of these is a lemma.

- The store's comment says its scripts keep the three structures from drifting. But a join asks before its script,
  `dequeue` reads the ticket before its script, and a claim cleans up with two reads and a pipeline. A leave racing a
  join, or a join racing a clean-up, leaves the structures in disagreement for good
  (`QueueAgreement.LeaveDuringJoinStrands`, `QueueAgreement.StructuresCanDrift`). Each step has an exact guard, and
  the structures agree as long as all steps meet it (`QueueAgreement.StepIsSoundExactly`,
  `QueueAgreement.AgreementLastsExactly`). Double booking is impossible all the same.
- WATCH state belongs to a connection, and the battles container gives every caller the same one
  (apps/backend/src/modules/battles/container.ts:37). The compare-and-set loop is linearizable if and
  only if transition callers do not share one (`BattleStoreProtocol.LinearizableExactlyWithOwnConnections`).
- A battle is finalized at most once if and only if transition callers do not share a connection and lock leases do
  not expire under their holder (`BattleStoreProtocol.FinalizedOnceExactly`). As wired, a transition can bring the
  deleted record back, and the battle can then be finished again (`BattleStoreProtocol.SharingResurrects`,
  `BattleStoreProtocol.SharingFinishesTwice`).
- The nonce check reads and writes in two commands: requests that arrive together with one nonce all pass
  (`NonceProtocol.EachOnceExactlyWithoutRepeats`), and the stored nonce can fall, so that a later repeat passes too
  (`NonceProtocol.LateRepeatLetThrough`).
- `expire` has a branch for battles still in the lobby that can never be taken
  (`BattleLifecycle.ExpireNeverFindsALobby`); a battle that runs out of time is finished as a draw, not expired.
- The registry's comment says set-add returns the new size atomically; the size is a second call. The cap
  is safe, but two sockets racing for the last place are both refused (`Connections.TogetherBothOrNeither`).
- The detector's comment speaks of any twelve-word window; windows advance by six, and it takes 17 words to be
  certain (`Overlap.CaughtExactlyFromSeventeen`).
- The weekly key pairs the ISO week with the date's calendar year, so two weeks of one year can share a
  board and one week can have two (`IsoWeek.KeyIsSharedExactly`, `IsoWeek.WeekIsSplitExactly`).
- The scoring engine's comment lets a spacing error pass, yet under all-or-nothing scoring one spacing error costs the
  whole score (`JudgeRules.ScoreIsExact`).
- The rating store's comment promises atomic increments; the code reads the statistics and writes them back, so results
  that overlap are lost (`RatingLedger.UpdatesAreLostExactly`). The books are proved for results applied one after the other.

## Model

| member | source | states |
|---|---|---|
| Matchmaking.SweepIsMaximal | apps/backend/src/modules/matchmaking/services/matchmaking.service.ts:123-157 | After a sweep of a consistent pool no two tickets left could still be paired from either side, and none has timed out. |
| Matchmaking.SweepPairsFairly | apps/backend/src/modules/matchmaking/services/matchmaking.service.ts:130-153 | Every pair joins two different live waiting players, is compatible, inside the seeker's window, and takes the nearest unpaired opponent. |
| Matchmaking.SweepConserves | apps/backend/src/modules/matchmaking/services/matchmaking.service.ts:123-157 | Players before are players after plus evicted plus twice the matches; evicted are exactly the timed-out; other pools and all surviving tickets are untouched; the three structures still agree. |
| Matchmaking.SweepIsIdempotent | apps/backend/src/modules/matchmaking/services/matchmaking.service.ts:123-157 | A second sweep at the same clock matches nobody and changes nothing. |
| Matchmaking.WindowWidens | apps/backend/src/modules/matchmaking/services/matchmaking.service.ts:160-165 | The window never shrinks with waiting, and the moment it is fully open is known for every skill preference. |
| Matchmaking.CompatibleIsSymmetric | apps/backend/src/modules/matchmaking/services/matchmaking.service.ts:167-174 | Compatibility does not depend on who seeks. |
| Matchmaking.WaitGuarantee | apps/backend/src/modules/matchmaking/services/matchmaking.service.ts:123-165 | After 77 seconds a ticket is never left beside a compatible live one within 600 points. |
| Matchmaking.JoinKeepsAgreement | apps/backend/src/modules/matchmaking/services/matchmaking.service.ts:56-89 | A refused join changes nothing; an accepted one leaves the player waiting or matched with the named friend, and the structures agree. |
| MatchRules.SweepHonoursWishes | apps/backend/src/modules/matchmaking/services/matchmaking.service.ts:123-174 | In ticket fields: everybody a sweep pairs is in the pool's mode and region, named nobody else, carries the same private code or none as the partner, and waited at most two minutes. |
| MatchRules.LeftOverForAReason | apps/backend/src/modules/matchmaking/services/matchmaking.service.ts:123-174 | Of two tickets left within reach of either, one names somebody else or their codes differ; exactly those who waited longer than two minutes were evicted. |
| MatchRules.JoinDecides | apps/backend/src/modules/matchmaking/services/matchmaking.service.ts:56-89 | Which of the refusals a join gets, in order; accepted, it is matched at once if and only if the named friend waits on the same terms, and then with that friend. |
| MatchRules.CompatibleExactly | apps/backend/src/modules/matchmaking/services/matchmaking.service.ts:167-174 | Two tickets are compatible if and only if mode, region and code agree and neither names somebody else. |
| Matchmaking.MatchmakingService.JoinQueue | apps/backend/src/modules/matchmaking/services/matchmaking.service.ts:56-89 | The method's result, refusals included, and its whole effect on queue and matches. |
| Matchmaking.MatchmakingService.FriendMatch | apps/backend/src/modules/matchmaking/services/matchmaking.service.ts:176-182 | A friend match claims exactly the pair, or leaves both alone. |
| Matchmaking.MatchmakingService.Leave | apps/backend/src/modules/matchmaking/services/matchmaking.service.ts:92-97 | Fails exactly when the player holds no ticket; otherwise removes that player only. |
| Matchmaking.MatchmakingService.SweepOnePool | apps/backend/src/modules/matchmaking/services/matchmaking.service.ts:123-157 | The loop with its paired set and counter computes the specified sweep. |
| Queue.EnqueueConsistent | apps/backend/src/modules/matchmaking/store/redis-queue.store.ts:31-52 | Enqueuing a player who is not waiting keeps pools, tickets and queued set in agreement. |
| Queue.DequeueRemoves | apps/backend/src/modules/matchmaking/store/redis-queue.store.ts:63-78 | Erasing a player whose ticket is current removes that player and nobody else. |
| Queue.ClaimRemovesBoth | apps/backend/src/modules/matchmaking/store/redis-queue.store.ts:111-133 | A claim succeeds exactly when both wait, and then removes exactly those two from all three structures. |
| Queue.CandidatesAre | apps/backend/src/modules/matchmaking/store/redis-queue.store.ts:80-92 | Exactly the other waiting players of the pool inside the window, nearest first. |
| Queue.PoolTicketsAre | apps/backend/src/modules/matchmaking/store/redis-queue.store.ts:94-97 | Each waiting player of the pool, once. |
| Queue.RedisQueueStore.EnqueueTicket | apps/backend/src/modules/matchmaking/store/redis-queue.store.ts:31-52 | The new state of all three structures. |
| Queue.RedisQueueStore.DequeueUser | apps/backend/src/modules/matchmaking/store/redis-queue.store.ts:63-78 | The new state, and whether a ticket was held. |
| Queue.RedisQueueStore.Claim | apps/backend/src/modules/matchmaking/store/redis-queue.store.ts:111-133 | The new state, and whether the claim succeeded. |
| Queue.RedisQueueStore.HydrateIds | apps/backend/src/modules/matchmaking/store/redis-queue.store.ts:99-109 | The tickets of the given ids that still exist, in order. |
| Queue.RedisQueueStore.FindCandidates | apps/backend/src/modules/matchmaking/store/redis-queue.store.ts:80-92 | Computes the candidates of the specification. |
| Queue.RedisQueueStore.ListPool | apps/backend/src/modules/matchmaking/store/redis-queue.store.ts:94-97 | Computes the pool's tickets. |
| BookingProtocol.NoDoubleBooking | apps/backend/src/modules/matchmaking/store/redis-queue.store.ts:111-133 | On every schedule each booking joins two different, compatible players who had enqueued, and between two bookings of a player lies a new enqueue of that player. |
| BookingProtocol.RunKeepsInvariant | apps/backend/src/modules/matchmaking/services/matchmaking.service.ts:138-182 | The invariant behind it: whoever is claimable has enqueued since the last booking, and every worker acts on tickets that were really enqueued. |
| BookingProtocol.BookingsNeverExceedEnqueues | apps/backend/src/modules/matchmaking/store/redis-queue.store.ts:31-133 | No player is booked more often than enqueued, and strictly less often while waiting. |
| BookingProtocol.AskRefusedExactly | apps/backend/src/modules/matchmaking/services/matchmaking.service.ts:65-69 | A join goes on exactly if its user is not marked as queued when it asks and does not name itself. |
| BookingProtocol.NobodyWaitsForThemselves | apps/backend/src/modules/matchmaking/services/matchmaking.service.ts:65-69 | On every schedule no enqueued ticket names its own user as the friend to wait for. |
| QueueAgreement.AgreementLastsExactly | apps/backend/src/modules/matchmaking/store/redis-queue.store.ts:31-133 | On every schedule the structures stay sound to the end if and only if every step meets its guard; and then they are consistent whenever all workers are done. |
| QueueAgreement.StepIsSoundExactly | apps/backend/src/modules/matchmaking/store/redis-queue.store.ts:31-133 | Exact, step by step: from a sound state any step of any worker leads to a sound state if and only if it meets its guard. |
| QueueAgreement.ConsistentExactly | apps/backend/src/modules/matchmaking/store/redis-queue.store.ts:31-52 | The structures are consistent exactly when every entry is that of a ticket, every queued user is found, and every ticket is a queued user's. |
| QueueAgreement.EnqueueAgreesExactly | apps/backend/src/modules/matchmaking/store/redis-queue.store.ts:31-52 | An enqueue keeps the structures consistent if and only if the player is not waiting in another pool. |
| QueueAgreement.DequeueAgreesExactly | apps/backend/src/modules/matchmaking/store/redis-queue.store.ts:63-78 | A leave whose ticket was read earlier keeps them consistent if and only if a player who holds a ticket held one when it was read, in the same pool. |
| QueueAgreement.CleanUpAgreesExactly | apps/backend/src/modules/matchmaking/store/redis-queue.store.ts:120-133 | A clean-up whose ticket was read at any earlier moment makes them consistent if and only if a player with a ticket either joined again after a reading that found none, or did not join again and was read in the right pool. |
| QueueAgreement.StructuresCanDrift | apps/backend/src/modules/matchmaking/store/redis-queue.store.ts:111-133 | For any two compatible tickets there is a schedule after which all are done and a player is marked as queued, holds no ticket and can neither join nor be found. |
| QueueAgreement.LeaveDuringJoinStrands | apps/backend/src/modules/matchmaking/store/redis-queue.store.ts:63-70 | A leave that races a join leaves a player in the pool who is not marked as queued and can never be claimed. |
| BattleStoreProtocol.TransitionIsLinearizable | apps/backend/src/modules/battles/store/redis-battle-state.store.ts:41-69 | With a connection per caller, on every schedule each successful transition replaced exactly the value stored at that moment, in the expected state, by mutate of it. |
| BattleStoreProtocol.OneWinnerPerOccupancy | apps/backend/src/modules/battles/store/redis-battle-state.store.ts:41-69 | Two transitions out of one state cannot both win one occupancy of it. |
| BattleStoreProtocol.RaceHasOneWinner | apps/backend/src/modules/battles/store/redis-battle-state.store.ts:41-69 | Of any number of callers racing out of one state only one returns successfully, and as soon as any returns there is such a winner. |
| BattleStoreProtocol.SharingBreaks | apps/backend/src/modules/battles/store/redis-battle-state.store.ts:41-69 | Two callers on one connection: a schedule on which a transition overwrites a value it did not read. |
| BattleStoreProtocol.LinearizableExactlyWithOwnConnections | apps/backend/src/modules/battles/store/redis-battle-state.store.ts:41-69 | All schedules are linearizable if and only if no two callers share a connection. |
| BattleStoreProtocol.LeaseIsKept | apps/backend/src/modules/battles/store/redis-battle-state.store.ts:117-135 | Whatever all other callers do, late releases included, a lease ends only by expiring or by a step of its holder. |
| BattleStoreProtocol.BattleFinalizedOnce | apps/backend/src/modules/battles/services/battle.service.ts:346-396 | With a connection per transition caller and unexpired leases, a battle gets at most one durable finish and one publication, with the winner of the first holder to pass its checks, and nothing brings the deleted record back. |
| BattleStoreProtocol.PassesAreEarned | apps/backend/src/modules/battles/services/battle.service.ts:346-360 | On every schedule whoever passes the checks is a host, with the winner the host named if any, or a user with an accepted verdict, who is then the winner. |
| BattleStoreProtocol.VerdictsDecideOnlyDuels | apps/backend/src/modules/battles/services/battle.service.ts:574-587 | While the record is never an ACTIVE one-versus-one battle, no accepted verdict passes the checks. |
| BattleStoreProtocol.TriesAreBounded | apps/backend/src/modules/battles/store/redis-battle-state.store.ts:47-68 | A transition fails for a wrong state or after losing five races, a lock is given up after fifty tries, and neither earlier. |
| BattleStoreProtocol.ExpiryBreaks | apps/backend/src/modules/battles/services/battle.service.ts:346-396 | With expiring leases, a schedule that finishes the battle twice. |
| BattleStoreProtocol.SharingResurrects | apps/backend/src/modules/battles/store/redis-battle-state.store.ts:41-69 | On one connection, without any expiry: a schedule on which a transition writes the record back after the battle was finished and the record deleted. |
| BattleStoreProtocol.SharingFinishesTwice | apps/backend/src/modules/battles/services/battle.service.ts:574-587 | After that an accepted verdict that was waiting for the lock finishes the battle a second time. |
| BattleStoreProtocol.FinalizedOnceExactly | apps/backend/src/modules/battles/services/battle.service.ts:346-396 | With two hosts' finishes racing any transitions out of ACTIVE, at most one finish on all schedules if and only if no two transition callers share a connection and leases do not expire. |
| BattleLifecycle.RunIsLawful | apps/backend/src/modules/battles/services/battle.service.ts:108-429 | On every run: the row is the projection of the live state, each live state has its timer, an EXPIRE job means ACTIVE, PAUSED or no record, a finished battle has one published result with the stored winner, the log is numbered without gaps, the room is never over capacity. |
| BattleLifecycle.StepIsLawful | apps/backend/src/modules/battles/services/battle.service.ts:233-429 | Every entry point keeps that invariant. |
| BattleLifecycle.EveryChangeIsAnEdge | apps/backend/src/modules/battles/state/battle-state-machine.ts:10-22 | Every state change on every run is an edge of the transition table. |
| BattleRules.RunFollowsRules | apps/backend/src/modules/battles/services/battle.service.ts:233-429 | On every run, each operation moves a battle exactly as its rule says: by whom, out of which state, into which. |
| BattleRules.VerdictDecides | apps/backend/src/modules/battles/services/battle.service.ts:543-588 | A verdict ends a battle if and only if it is ACTIVE, one-versus-one and the verdict accepted; winner, row, places and publication are then those of that user. Any other verdict of an ACTIVE battle adds one log entry and nothing else. |
| BattleRules.WinnerIsEarned | apps/backend/src/modules/battles/services/battle.service.ts:346-429 | Over any run exactly one operation finished a finished battle, and the winner is the user of the first accepted verdict, whom the host chose, or nobody, by its kind. |
| BattleRules.FinishFollowsRules | apps/backend/src/modules/battles/repositories/battle.repository.ts:78-101 | After a finish the winner is first with 100 points, all others second with the points they had, and row and publication name that winner. |
| BattleRules.BattleBegins | apps/backend/src/modules/battles/services/battle.service.ts:108-287 | A battle begins with its host alone, and its clock when the countdown ends; starting changes only the state. |
| BattleRules.JoinAdmits | apps/backend/src/modules/battles/services/battle.service.ts:176-214 | A user gets in exactly while the battle is live, has room, and does not list them; row and record then both do. |
| BattleRules.LogTellsTheStory | apps/backend/src/modules/battles/services/battle.service.ts:82-96 | A live battle's log has one numbered entry for each change of state, arrival and verdict. |
| BattleRules.PausedTimeIsAdded | apps/backend/src/modules/battles/services/battle.service.ts:290-343 | Whatever happens between pausing and resuming, exactly the length of the pause is added to the duration. |
| BattleLifecycle.ExpireNeverFindsALobby | apps/backend/src/modules/battles/services/battle.service.ts:412-421 | Whenever an EXPIRE job finds a record, the battle is ACTIVE or PAUSED: the lobby branch is dead. |
| BattleLifecycle.TimeExpiredIsADraw | apps/backend/src/modules/battles/services/battle.service.ts:418-420 | A battle that runs out of time is finished without a winner. |
| BattleLifecycle.OverForever | apps/backend/src/modules/battles/services/battle.service.ts:363-396 | Once the record is gone, status and published result never change again. |
| BattleLifecycle.TimersEndTheBattle | apps/backend/src/modules/battles/services/battle.service.ts:233-429 | From every reachable live state the pending timers alone bring the battle to an end. |
| BattleLifecycle.NonceWorksOnce | apps/backend/src/modules/battles/store/redis-battle-state.store.ts:109-115 | With each check taken as one step, a nonce that was accepted is never accepted again, whatever happens in between. |
| NonceProtocol.EachOnceExactlyWithoutRepeats | apps/backend/src/modules/battles/store/redis-battle-state.store.ts:109-115 | With reading and writing as separate steps, over all schedules a nonce is accepted at most once if and only if no two requests carry the same nonce above the stored one. |
| NonceProtocol.NoncesIncreaseExactly | apps/backend/src/modules/battles/store/redis-battle-state.store.ts:109-115 | On any schedule the accepted nonces increase if and only if each is still above the stored one when written; requests handled one at a time are. |
| NonceProtocol.BothLetThrough | apps/backend/src/modules/battles/store/redis-battle-state.store.ts:109-115 | Two requests with one nonce that both read first are both accepted. |
| NonceProtocol.LateRepeatLetThrough | apps/backend/src/modules/battles/store/redis-battle-state.store.ts:109-115 | After two overlapping requests the stored nonce has fallen, and a later repeat alone is accepted. |
| BattleLifecycle.BattleEngine.GuardedTransition | apps/backend/src/modules/battles/services/battle.service.ts:611-624 | Replaces the record by mutate of it and returns it, if the edge exists and the record is in the expected state; otherwise says which of the three reasons it was and changes nothing. |
| BattleLifecycle.BattleEngine.EmitAndLog | apps/backend/src/modules/battles/services/battle.service.ts:82-96 | Appends one event numbered after the last. |
| BattleLifecycle.BattleEngine.CheckAndBumpNonce | apps/backend/src/modules/battles/store/redis-battle-state.store.ts:109-115 | Accepts exactly larger nonces and remembers them. |
| BattleLifecycle.BattleEngine.Schedule | apps/backend/src/modules/battles/scheduler/battle.scheduler.ts:31-54 | Adds one pending job. |
| BattleLifecycle.BattleEngine.CancelAll | apps/backend/src/modules/battles/scheduler/battle.scheduler.ts:56-62 | Removes the pending jobs, except one that is already running. |
| BattleLifecycle.BattleEngine.Finalize | apps/backend/src/modules/battles/services/battle.service.ts:363-396 | Row, ranks, jobs, log, publication and record after a finish. |
| BattleLifecycle.BattleEngine.FinishRow | apps/backend/src/modules/battles/repositories/battle.repository.ts:78-101 | The durable finish: status, winner, ranks and scores, room. |
| BattleLifecycle.BattleEngine.CancelInternal | apps/backend/src/modules/battles/services/battle.service.ts:443-462 | Row, room, jobs and record after an abort. |
| BattleLifecycle.BattleEngine.DropRuntime | apps/backend/src/modules/battles/store/redis-battle-state.store.ts:71-77 | Record and event log go together. |
| BattleLifecycle.BattleEngine.CreateBattle | apps/backend/src/modules/battles/services/battle.service.ts:108-173 | The whole state of a new battle. |
| BattleLifecycle.BattleEngine.JoinBattle | apps/backend/src/modules/battles/services/battle.service.ts:176-214 | Refusals, and the effect on row and record. |
| BattleLifecycle.BattleEngine.StartCountdown | apps/backend/src/modules/battles/services/battle.service.ts:233-258 | Refusals, and the whole new state. |
| BattleLifecycle.BattleEngine.Activate | apps/backend/src/modules/battles/services/battle.service.ts:261-287 | The whole new state, or nothing if the countdown is over. |
| BattleLifecycle.BattleEngine.MarkStarted | apps/backend/src/modules/battles/repositories/battle.repository.ts:71-76 | The durable start. |
| BattleLifecycle.BattleEngine.PauseBattle | apps/backend/src/modules/battles/services/battle.service.ts:290-313 | Refusals, and the whole new state. |
| BattleLifecycle.BattleEngine.ResumeBattle | apps/backend/src/modules/battles/services/battle.service.ts:315-343 | Refusals, and the whole new state with the extended duration. |
| BattleLifecycle.BattleEngine.HostFinish | apps/backend/src/modules/battles/services/battle.service.ts:346-360 | Refusals, and the finish. |
| BattleLifecycle.BattleEngine.Expire | apps/backend/src/modules/battles/services/battle.service.ts:412-421 | The timer's finish or abort. |
| BattleLifecycle.BattleEngine.ReadyTimeout | apps/backend/src/modules/battles/services/battle.service.ts:424-429 | Aborts a battle that is still WAITING. |
| BattleLifecycle.BattleEngine.RecordSubmission | apps/backend/src/modules/battles/services/battle.service.ts:543-588 | Logs every verdict; the first accepted one of a one-versus-one battle finishes it. |
| Text.TokenizeFindsWords | apps/backend/src/modules/judge/comparators/output-comparator.ts:78-80 | Tokenizing yields exactly the maximal runs of characters that are not white space, in order. |
| Text.WordsSeparate | apps/backend/src/modules/judge/comparators/output-comparator.ts:78-80 | Any stretch of white space separates: layout between words does not matter. |
| Text.UnixLinesWords | apps/backend/src/modules/judge/comparators/output-comparator.ts:43-52 | Line endings do not change the words. |
| Comparators.Float | apps/backend/src/modules/judge/comparators/output-comparator.ts:59-76 | The loop with its early exits accepts exactly when the token lists are of one length and close pairwise. |
| Comparators.ExactImpliesToken | apps/backend/src/modules/judge/comparators/output-comparator.ts:32-52 | An EXACT match is a TOKEN match without presentation error. |
| Comparators.TokenImpliesFloat | apps/backend/src/modules/judge/comparators/output-comparator.ts:43-76 | A TOKEN match is a FLOAT match. |
| Comparators.FloatTolerance | apps/backend/src/modules/judge/comparators/output-comparator.ts:59-76 | A finite expected token accepts exactly the numbers within epsilon times max(1, its magnitude). |
| Comparators.TokenMatchesWords | apps/backend/src/modules/judge/comparators/output-comparator.ts:43-52 | TOKEN is equality of words, hence an equivalence. |
| Comparators.SpacingErrorExactly | apps/backend/src/modules/judge/comparators/output-comparator.ts:43-52 | Outputs of the same words are accepted as they stand if and only if they are one text but for line endings and white space at the end, and with a spacing error otherwise. |
| Comparators.ExactMatches | apps/backend/src/modules/judge/comparators/output-comparator.ts:32-36 | EXACT accepts the same text but for line endings, and for one newline at the end of one of the two where the other has none. |
| Comparators.NonNumbersMatchThemselves | apps/backend/src/modules/judge/comparators/output-comparator.ts:64-70 | A token that is no number matches itself only. |
| Comparators.LayoutIsIgnored | apps/backend/src/modules/judge/comparators/output-comparator.ts:43-52 | White space may be replaced by any other, and CRLF by LF, without changing a TOKEN match. |
| Comparators.TokenizeRoundTrip | apps/backend/src/modules/judge/comparators/output-comparator.ts:78-80 | Tokenizing space-joined tokens gives them back. |
| Judge.EarlyStopPreservesMeaning | apps/backend/src/modules/judge/services/judge.service.ts:121-150 | Stopping after a failing batch and running every case give the same verdict, maximal score and number of results, and stopping never passes or scores more. |
| Judge.JudgeEndToEnd | apps/backend/src/modules/judge/services/judge.service.ts:45-150 | One result per case, public cases first; skipped results are a suffix at a multiple of four after a failing batch; the verdict is a pass exactly when all passed; the percentage is the nearest whole number. |
| Judge.EveryRunIsCut | apps/backend/src/modules/judge/services/judge.service.ts:130-148 | Every run answers a prefix of whole batches that ends after a failure or at the end, and skips the rest. |
| Judge.StoppedRunIs | apps/backend/src/modules/judge/services/judge.service.ts:121-150 | The stopped run is the full run up to the first failing batch, followed by skipped results. |
| Judge.PercentageIsClose | apps/backend/src/modules/judge/scoring/scoring-engine.ts:18-55 | The percentage lies in 0..100, within one half of the exact ratio, and never falls as the score rises. |
| Judge.OrderedIs | apps/backend/src/modules/judge/services/judge.service.ts:122-127 | Ordering keeps the cases, puts public ones first, and keeps the sum of weights. |
| Judge.UncleanIgnoresOutput | apps/backend/src/modules/judge/verdict/verdict-mapper.ts:20-35 | A program is judged on its output exactly when it compiled, was not timed out, killed or truncated, and exited with 0: otherwise neither expected output nor comparator makes a difference. |
| JudgeRules.VerdictIsWeightiestCause | apps/backend/src/modules/judge/verdict/verdict-mapper.ts:20-35 | A verdict stands for exactly one cause, the weightiest that happened: compile error, timeout, out of memory, too much output, crash, wrong output, bad spacing, in this order. |
| JudgeRules.SubmissionFailsByFirstCause | apps/backend/src/modules/judge/scoring/scoring-engine.ts:30-37 | The verdict of a failing submission is that of its first failing case, public cases first, whether or not judging stops early. |
| JudgeRules.ScoreIsExact | apps/backend/src/modules/judge/scoring/scoring-engine.ts:18-55 | However listed: passed counts the passing cases; partial scoring sums their weights; without it everything is scored if and only if every case is accepted without a spacing error. |
| JudgeRules.PublicCasesFirst | apps/backend/src/modules/judge/services/judge.service.ts:122-127 | Public cases come before hidden ones, each kind by order number, equal numbers as listed; none is lost or repeated. |
| JudgeRules.PeaksAreShown | apps/backend/src/modules/judge/scoring/scoring-engine.ts:39-40 | The time and memory shown are those of the hungriest case, in milliseconds and kilobytes. |
| JudgeRules.JudgingFailsExactly | apps/backend/src/modules/judge/services/judge.service.ts:45-70 | Judging fails exactly for a problem without cases or an engine without an answer. |
| JudgeRules.CustomJudgesLikeToken | apps/backend/src/modules/judge/comparators/output-comparator.ts:18-29 | A custom comparator judges by tokens. |
| JudgeRules.BytesAreCounted | apps/backend/src/modules/judge/verdict/verdict-mapper.ts:38-40 | Output is measured in bytes of its encoding. |
| Judge.StricterComparatorsAcceptLess | apps/backend/src/modules/judge/comparators/output-comparator.ts:18-29 | For whole submissions: what EXACT accepts TOKEN accepts, what TOKEN passes FLOAT accepts, and the number of passed cases follows. |
| Judge.RunAllCases | apps/backend/src/modules/judge/services/judge.service.ts:121-150 | The loop over batches with its results list and failure flag computes the specified run, or fails as a whole. |
| Judge.RunTogether | apps/backend/src/modules/judge/services/judge.service.ts:140-147 | One batch: the results of its cases in order. |
| Judge.SkipAll | apps/backend/src/modules/judge/services/judge.service.ts:131-136 | Skipped results for the cases of a batch. |
| Judge.JudgeSubmission | apps/backend/src/modules/judge/services/judge.service.ts:45-112 | The aggregated result of the run, or which of the two errors; its meaning is stated in `JudgeRules`. |
| Elo.ExpectedScoresSumToOne | apps/backend/src/modules/matchmaking/elo/elo.ts:16-18 | The two expected scores lie in (0, 1) and sum to 1, derived from the law of powers. |
| Elo.StrongerOpponentExpectsLess | apps/backend/src/modules/matchmaking/elo/elo.ts:16-18 | The stronger the opponent, the less is expected. |
| Elo.MovesWithinK | apps/backend/src/modules/matchmaking/elo/elo.ts:32-42 | No rating at or above the floor moves by more than its K, wins never lower, losses never raise, and none ends below the floor. |
| Elo.BetterResultsEarnMore | apps/backend/src/modules/matchmaking/elo/elo.ts:26-42 | Loss, draw and win are ordered. |
| Elo.StrongerOpponentEarnsMore | apps/backend/src/modules/matchmaking/elo/elo.ts:32-42 | The same result against a stronger opponent never earns less. |
| Elo.KShrinks | apps/backend/src/modules/matchmaking/elo/elo.ts:20-24 | K never grows as a player plays more and climbs; it falls exactly at the 30th game and, from there on, at 2400. |
| Elo.EqualOpponents | apps/backend/src/modules/matchmaking/elo/elo.ts:33-42 | Against an equal opponent a rating stays exactly after a draw, or a loss at the floor. |
| Elo.PairSum | apps/backend/src/modules/matchmaking/elo/elo.ts:45-60 | With equal K and no floor the sum moves by 0 or 1, by 1 exactly when the exchange ends in one half; the floor only adds points. |
| RatingLedger.RunKeepsBooks | apps/backend/src/modules/matchmaking/services/rating.service.ts:39-111 | Over any run each change starts where the last ended, the peak is the highest of 1200 and all ratings, games, wins, losses and streaks are those of the player's battles, no rating is below 100. |
| RatingLedger.WinsEqualLosses | apps/backend/src/modules/matchmaking/store/redis-rating.store.ts:38-70 | Over all players wins and losses both add up to the number of rated battles that somebody won. |
| LedgerRules.RunMovesFairly | apps/backend/src/modules/matchmaking/services/rating.service.ts:39-111 | Over any run of fair results each rated battle left two changes, each computed from the player's own standing and the other's rating, never larger than the own K, never negative for the winner nor positive for the loser, conserving points up to one with equal K; nobody else moved. |
| LedgerRules.RunBoardsExactly | apps/backend/src/modules/matchmaking/services/rating.service.ts:114-160 | Every board of every scope and period shows exactly the players some commit of whom belonged on it, each at the rating of the latest such commit. |
| LedgerRules.StrangerWinsForSecond | apps/backend/src/modules/matchmaking/services/rating.service.ts:55-75 | A winner who did not play counts as a win of the second player. |
| LedgerRules.UnratedStays | apps/backend/src/modules/matchmaking/services/rating.service.ts:46-49 | An unrated battle moves nothing. |
| RatingLedger.RunKeepsBoards | apps/backend/src/modules/matchmaking/services/rating.service.ts:114-160 | The all-time global board holds exactly the players who have played, each at the present rating; every entry of every board is a rating that was held. |
| RatingLedger.ChainSurvivesExactly | apps/backend/src/modules/matchmaking/services/rating.service.ts:64-75 | The chain of changes survives a battle if and only if the players are distinct, or it was a draw, or the first player lost at the floor. |
| RatingLedger.UpdatesAreLostExactly | apps/backend/src/modules/matchmaking/store/redis-rating.store.ts:24-70 | On every schedule of reads and writes for one player, the statistics are those of applying all written results in turn if and only if no result is written between another one's reading and its write; otherwise games are lost. |
| RatingLedger.TwoWinsCountAsOne | apps/backend/src/modules/matchmaking/store/redis-rating.store.ts:38-70 | Two wins that are both read before either is written count as one. |
| RatingLedger.UpsertAllIs | apps/backend/src/modules/matchmaking/services/rating.service.ts:126-158 | A refresh sets exactly the keys of the three periods and leaves every other board alone. |
| RatingLedger.RatingService.ApplyResult | apps/backend/src/modules/matchmaking/store/redis-rating.store.ts:38-70 | The statistics after one result. |
| RatingLedger.RatingService.RefreshLeaderboards | apps/backend/src/modules/matchmaking/services/rating.service.ts:114-158 | The loop over the periods upserts exactly the specified boards. |
| RatingLedger.RatingService.CommitChange | apps/backend/src/modules/matchmaking/services/rating.service.ts:78-111 | Statistics, history and boards after one commit, and the change returned. |
| RatingLedger.RatingService.ApplyBattleResult | apps/backend/src/modules/matchmaking/services/rating.service.ts:39-76 | Nothing for an unrated battle; otherwise both commits, computed from what was read before either. |
| IsoWeek.WeekNumber | apps/backend/src/modules/matchmaking/services/period.util.ts:13-20 | The moved date and the rounded quotient give the place of the week's Thursday among the Thursdays of its year, for every date (section 2.2.10 of ISO 8601:2004). |
| IsoWeek.WeekRange | apps/backend/src/modules/matchmaking/services/period.util.ts:13-20 | Numbers lie in 1..53, and 53 occurs only in years that begin on a Thursday, or on a Wednesday if leap. |
| IsoWeek.LongYearsHave53 | apps/backend/src/modules/matchmaking/services/period.util.ts:13-20 | Every such year has its week 53. |
| IsoWeek.WeekIsConstant | apps/backend/src/modules/matchmaking/services/period.util.ts:15-18 | The number is the same from Monday to Sunday. |
| IsoWeek.NextWeek | apps/backend/src/modules/matchmaking/services/period.util.ts:13-20 | A week later the number is one higher, or the week's year has changed and it is 1 again. |
| IsoWeek.WeekIsIdentified | apps/backend/src/modules/matchmaking/services/period.util.ts:13-20 | Week year and number together name a week. |
| IsoWeek.KeyIsSharedExactly | apps/backend/src/modules/matchmaking/services/period.util.ts:7-11 | A date's key is shared by another week if and only if the date is outside the year of its week and not in week 53; or is in week 1 of a year whose 31 December belongs to the next week year; or has the number of its year's 1 January, which belongs to the week year before. |
| IsoWeek.WeekIsSplitExactly | apps/backend/src/modules/matchmaking/services/period.util.ts:7-11 | A week has two keys exactly when a new year begins inside it. |
| IsoWeek.FirstAndLastMondayOf2024 | apps/backend/src/modules/matchmaking/services/period.util.ts:7-11 | Both have the key 2024-W01. |
| IsoWeek.YearIs | apps/backend/src/modules/matchmaking/services/period.util.ts:16-17 | The year of a day is the one whose first day is not after it and whose successor's is. |
| RateLimit.SlidingBound | services/socket-service/src/middlewares/rate-limit.middleware.ts:30-48 | For timestamps that do not go back, any stretch of k windows accepts at most (k + 1) times the maximum: a sliding window at most twice. |
| RateLimit.TwiceTheMaximum | services/socket-service/src/middlewares/rate-limit.middleware.ts:30-48 | Under every configuration there is a stream that reaches twice the maximum. |
| RateLimit.CompliantClientIsNeverRefused | services/socket-service/src/middlewares/rate-limit.middleware.ts:34-45 | A client that keeps to the maximum in every sliding window is never refused. |
| RateLimit.RefusalHasCause | services/socket-service/src/middlewares/rate-limit.middleware.ts:34-45 | A refused event is preceded by more than the maximum of events within one window. |
| RateLimit.RateLimiter.Receive | services/socket-service/src/middlewares/rate-limit.middleware.ts:31-47 | The new window start and count, and the verdict. |
| RateLimit.RateLimiter.constructor | services/socket-service/src/middlewares/auth.middleware.ts:50 | A new bucket starts at the handshake with count 0. |
| Connections.CapIsNeverExceeded | services/socket-service/src/gateway/socket.gateway.ts:55-67 | Under every interleaving by any number of nodes a user has at most the maximum of usable sockets, those that died unnoticed counted in. |
| Connections.RunKeepsInvariant | services/socket-service/src/managers/redis-connection.registry.ts:14-25 | The set holds exactly the sockets between their add and their remove, and at most the maximum have passed the check. |
| Connections.LastOneOutIsLast | services/socket-service/src/gateway/socket.gateway.ts:107-115 | A disconnect that reads an empty set has found the user without a usable socket. |
| Connections.AloneIsExact | services/socket-service/src/gateway/socket.gateway.ts:55-67 | With no other step in between, a socket is accepted exactly when fewer than the maximum are registered. |
| Connections.TogetherBothOrNeither | services/socket-service/src/managers/redis-connection.registry.ts:14-19 | Two sockets that arrive together are both accepted or both refused; a single free place is given to neither. |
| Connections.ClosingEarlyLeaksExactly | services/socket-service/src/gateway/socket.gateway.ts:55-80 | A socket that closes at any moment before it is accepted, on any schedule: once the node is through with it, its id stays for good if and only if the size it read was within the limit; nobody can use it in either case. |
| Connections.DroppedOnArrivalAlone | services/socket-service/src/gateway/socket.gateway.ts:55-80 | Dropped on arrival and otherwise undisturbed, it leaks exactly when fewer than the maximum are registered. |
| Connections.DisconnectFreesThePlace | services/socket-service/src/gateway/socket.gateway.ts:107-115 | An accepted socket that closes gives its place back on every schedule, with the node's next step for it, and for good. |
| Connections.ConnectionRegistry.Add | services/socket-service/src/managers/redis-connection.registry.ts:14-19 | The new set and its size. |
| Connections.ConnectionRegistry.Remove | services/socket-service/src/managers/redis-connection.registry.ts:21-25 | The new set and its size. |
| Connections.ConnectionRegistry.OnConnection | services/socket-service/src/gateway/socket.gateway.ts:55-67 | Accepted exactly below the maximum; a refused socket leaves the registry as it was. |
| Overlap.FindEditorial | apps/backend/src/modules/ai-coach/validation/response-validator.ts:107-119 | The stepped loop finds exactly whether some compared window occurs. |
| Overlap.SeventeenWordsAreCaught | apps/backend/src/modules/ai-coach/validation/response-validator.ts:107-119 | Any 17 consecutive words of an editorial of at least 40 characters are flagged, in any layout and case. |
| Overlap.FlaggedMeansTwelveWords | apps/backend/src/modules/ai-coach/validation/response-validator.ts:115-117 | A flagged text contains twelve consecutive words of the editorial. |
| Overlap.CaughtExactlyFromSeventeen | apps/backend/src/modules/ai-coach/validation/response-validator.ts:107-119 | Whatever is withheld, a text that quotes n consecutive words is always flagged if and only if n is at least 17. |
| Overlap.Validate | apps/backend/src/modules/ai-coach/validation/response-validator.ts:24-54 | A leaking answer is replaced by the fixed summary and point; any other is stripped of code if there is too much, and clipped. |
| Overlap.HaystackHoldsAll | apps/backend/src/modules/ai-coach/validation/response-validator.ts:24-29 | The leak checks look at the summary, every point and the complexity. |
| Overlap.HiddenInputInAPoint | apps/backend/src/modules/ai-coach/validation/response-validator.ts:121-124 | A hidden input of eight characters or more that stands in any point leads to scrubbing. |
| Overlap.HiddenInputsFound | apps/backend/src/modules/ai-coach/validation/response-validator.ts:121-124 | A hidden input counts as leaked if and only if it has eight characters or more and stands in the text verbatim. |
| Overlap.CodeIsCounted | apps/backend/src/modules/ai-coach/validation/response-validator.ts:126-129 | Code characters are counted if and only if there is a code block, and never exceed the text. |
| Overlap.StrippedHasNoCode | apps/backend/src/modules/ai-coach/validation/response-validator.ts:126-133 | Stripping leaves no code block, and leaves a text without one alone. |
| Overlap.StrippedAnswersHaveNoCode | apps/backend/src/modules/ai-coach/validation/response-validator.ts:36-54 | After stripping no field shown holds a code block, also after clipping, and the bounds always hold. |
| Overlap.ShortAnswersPass | apps/backend/src/modules/ai-coach/validation/response-validator.ts:46-54 | An answer within the bounds is shown as it is. |
| Rooms.RunKeepsInvariant | services/socket-service/src/handlers/room.handlers.ts:78-164 | Over every run of the handlers the member set is the key set of the presence hash, and never exceeds the capacity. |
| Rooms.RunFromEmpty | services/socket-service/src/handlers/room.handlers.ts:78-164 | In particular every run from empty stores. |
| Rooms.OwnerStaysInside | services/socket-service/src/managers/room.manager.ts:28-123 | Once a room's owner is a member, its owner is a member for as long as the room is open. |
| Rooms.LeaveSettlesOwnership | services/socket-service/src/handlers/room.handlers.ts:144-164 | After any leave an emptied room is gone, and otherwise a remaining member owns it; the owner changes only if absent. |
| Rooms.LeaveUndoesJoin | services/socket-service/src/handlers/room.handlers.ts:78-164 | Leaving undoes joining if and only if the owner is in the room. |
| Rooms.StrangerLeaves | services/socket-service/src/managers/room.manager.ts:64-77 | A leave by somebody who is not a member closes exactly a room that nobody has joined. |
| RoomRules.RoomClosesExactly | services/socket-service/src/managers/room.manager.ts:64-89 | An open room is closed by a step if and only if its owner deletes it, or somebody leaves and nobody is left. |
| RoomRules.RoomOpensExactly | services/socket-service/src/managers/room.manager.ts:28-47 | A room is opened only by a create, which makes its caller the owner of an empty room of the type's capacity. |
| RoomRules.OnlyOwnersDelete | services/socket-service/src/managers/room.manager.ts:80-89 | A delete by anybody but the owner changes nothing and is refused with Unauthorized or RoomNotFound; the owner is never refused. |
| RoomRules.MembersMoveExactly | services/socket-service/src/managers/room.manager.ts:49-89 | Members come by joining an open room with a place free, or their own, and go by leaving or when the owner deletes the room. |
| RoomRules.JoinsRefusedExactly | services/socket-service/src/managers/room.manager.ts:49-62 | A join is refused exactly if the room is not there, or is full to somebody who is not in it. |
| RoomRules.OwnershipMovesExactly | services/socket-service/src/managers/room.manager.ts:92-123 | Ownership moves only by the owner's handover to a member, or to the one listed first when the owner is not among those who stay. |
| RoomRules.HandoversRefusedExactly | services/socket-service/src/managers/room.manager.ts:92-100 | Which of the refusals a handover gets, in order. |
| RoomRules.PresenceIsOnesOwn | services/socket-service/src/managers/presence.manager.ts:18-69 | What others see of a participant changes only by that user's own steps, and how. |
| Rooms.RoomService.CreateRoom | services/socket-service/src/managers/room.manager.ts:28-47 | Creates the room, or returns the existing one and changes nothing. |
| Rooms.RoomService.JoinRoom | services/socket-service/src/managers/room.manager.ts:49-62 | Not found, full, or the new member set; an existing member is never refused. |
| Rooms.RoomService.HandleJoin | services/socket-service/src/handlers/room.handlers.ts:78-96 | Membership and presence together, or the refusal. |
| Rooms.RoomService.LeaveRoom | services/socket-service/src/managers/room.manager.ts:64-77 | The member removed; the last one out closes the room. |
| Rooms.RoomService.EraseRoom | services/socket-service/src/managers/redis-room.store.ts:45-51 | Record, members and presence go together. |
| Rooms.RoomService.OwnerDisconnected | services/socket-service/src/managers/room.manager.ts:112-123 | Promotes the first remaining member exactly when the owner is not among them. |
| Rooms.RoomService.ListPresent | services/socket-service/src/managers/redis-presence.store.ts:39-42 | Lists exactly those present, each once, in some order. |
| Rooms.RoomService.HandleLeave | services/socket-service/src/handlers/room.handlers.ts:144-164 | Presence, membership and promotion for some order of the presence hash. |
| Rooms.RoomService.HandleDelete | services/socket-service/src/managers/room.manager.ts:80-89 | Refused with RoomNotFound or Unauthorized to everybody but the owner, and then nothing changes; for the owner all three stores forget the room. |
| Rooms.RoomService.HandleTransfer | services/socket-service/src/managers/room.manager.ts:92-104 | Only the owner may, and only to a member. |
| Rooms.RoomService.UpdateParticipant | services/socket-service/src/managers/redis-presence.store.ts:22-32 | Only a present participant is patched, and nobody else. |

## Left out

- Time to live of Redis keys (tickets, runtime records, rooms, presence, the one-day expiry of connection sets), except the lock's lease.
- Failures of Redis, Postgres or the process in the middle of a method, such as a crash inside `finalize`.
- The sweep re-reads the clock for every ticket; the model takes one reading per sweep. `sweep()` over several pools is one `sweepPool` after the other.
- The order among equal ratings in a sorted set follows Redis; no law depends on it.
- Language preference and the CHALLENGE skill preference beyond its window: the matcher does not look at them.
- The battle created for a match is an opaque id; a failure of that creation after a claim is not modelled.
- `cancel`, `leave` and `markReady` of the battle service: they are not wired to a route, and `leave` can cancel an ACTIVE battle.
- BattleStoreProtocol.BattleFinalizedOnce: covers finish, accepted verdicts and compare-and-set transitions; expire, cancel, readyTimeout and join write without that protection.
- BattleLifecycle.NonceWorksOnce: takes the check as one step, like every service method there; its two commands apart are the subject of `NonceProtocol`.
- When a rescheduled EXPIRE job fires after a resume: `resume` changes only the recorded duration.
- Replay after a finish: deleting the record also drops the event log, as modelled, so there is nothing to replay.
- The Docker sandbox and the HTTP execution adapter: the engine is a function from input to outcome, or no answer.
- Floating point: durations, ratios, epsilon comparisons and 10 ** x are over the reals.
- What `Number(token)` accepts as a numeral is a parameter; an infinite expected value makes FLOAT accept any number, as in the code.
- Strings are sequences of characters, without UTF-16 code units; lower-casing is a parameter. Output limits count bytes.
- Boards and history under results that overlap for one player; only the statistics are modelled then.
- The capped length of the rating stream, its reading, the durable copy of the history and the published events.
- Leaderboard pages, ranks and the FRIENDS board: direct sorted-set calls.
- The decimal rendering of calendar keys, the monthly key, and the years 0 to 99, which `Date.UTC` reads as 1900 to 1999.
- Events of a socket after its first refusal: the code disconnects it, so fewer events are accepted than the bound allows.
- What a disconnecting socket does in the rooms it joined; only the count it reads is modelled.
- Interleavings inside a room handler: each handler is one step. Which member a leave promotes is any of those remaining.
- Cursor positions and display names in presence; only what rooms and presence agree on is kept.
- Parsing the model's answer as JSON; its complexity, questions and recommendations are passed on unchecked.
- Express routes, controllers, schemas, the web client, the editor, collaboration, problem administration: plumbing, or other systems.
