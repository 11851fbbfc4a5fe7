# Contest platform: verified model

A Dafny model of how the contest platform turns submissions into verdicts and verdicts into standings,
with proofs about it. `dafny verify dfyconfig.toml` checks everything.

Four parts of the platform are modelled.

**Standings** (leaderboard-service). Verdicts arrive at least once, an atomic script files each of them in
its user's record, the record is scored from scratch, and the score goes to a sorted set in a second,
separate step. At the end a batch pass groups all rows, scores, sorts and numbers them. Pages are served
from either store.

- `Scoring`, `OrderLaws`: the scan over a stably sorted list, the closed form it computes, what one more
  verdict does to a score, when arrival order matters, and what the packed score orders by.
- `LiveStore`, `LiveProtocol`, `LiveConsumer`, `LiveRecovery`: the script, the consumer's callback cut where
  it waits, the protocol of deliveries, lost replies, lost writes and crashes, and the way back from any of
  them.
- `Ranking`, `Freeze`, `Leaderboard`, `Standings`: the two rankings with their different tie rules, the
  freeze transaction, pages, forced recalculation, and the end-to-end agreement of the two boards.

**The problem cache** (execution-engine). `Decimal`, `CacheKeys`, `Cache`: keys `id_version`, the two
lookups and the cleaner as in-place operations. `CacheRuns`: workers and the cleaner interleaving under
their locks and a clock that never runs backwards. `CacheCalls`: the operations as paths of those steps.
`CheckerCompile`: the compiled checker of one item.

**Jobs and judging** (execution-engine, status-service). `JobDelivery`: broker, prefetch limit, consumer,
bounded channel and workers, with the checker locks they may wait for. `JobProgress`: when jobs go on and
get settled. `Judging`: one submission from compile to verdict, with its status updates.
`VerdictFlow`: which verdicts the leaderboard charges for. `LiveStatus`: the hash those updates feed and its
overlay on database rows.

**Test files** (polygon-service, execution-engine). `TestFiles`: the importer's renaming and validation of
a directory against the names the engine computes.

`Tally`, `Seqs`, `Options` and `Paths` hold sums over maps, sequences up to order and repetition, missing
values, and finite paths of a state machine.

Databases, sandbox runs and downloads are parameters: the rows a query returns, the report of a run, whether
a download succeeds. Where an algorithm visits a JavaScript object, a Go map or a directory, the model
visits it in an arbitrary order. Loops over mutable state are methods proved against the specification
functions beside them; the protocols are state machines, and their theorems hold at every index of every run.

## Hypotheses the theorems name

- One contest's Redis keys; other contests have their own.
- One payload for each submission id (`Consistent`, `OnePayload`).
- A live verdict and its database row carry the same status and relative time (`RowsMatchQueue`). In the
  source one time is a difference of Unix seconds and the other a rounded SQL interval, and a row that is
  still `QUEUE` has no counterpart in the queue.
- Every saved verdict of a rated submission reaches the queue (`RowsMatchQueue`); the engine drops the error
  of publishing it (execution-engine/worker/worker.go:155-163).
- Sorted-set writes of the one consumer instance reach Redis in script order (the `pending` queue).
  `SwappedWrites` and `SwappableRun` show that without this the sorted set can stay wrong for good.
- Problem ids contain no `_`, versions are decimal numbers, and a database row carries the problem id it was asked for.
- Status messages arrive in publish order where `LiveUntilVerdict` says so; the source starts a goroutine
  for each of them, and `GoneIffVerdictLast` says exactly what another order does.

## Where the code falls short of what it is for

- A charged verdict at exactly the time of the earliest AC makes the score depend on arrival order
  (`OrderIndependentIffNoTie`, `OrderIndependentIffNoTies`).
- The user in first place is treated as absent from the live board, because rank 0 is falsy
  (`GetUserLeaderboardRow`).
- Live rows shown for a page number below 1 carry wrong ranks, and page 0 shows rows whenever there are any
  (`RanksRightIffPagePositive`, `PageZeroShowsRows`).
- A failed checker compile returns with the item's lock held: from then on nobody waiting for that item has
  a step left (`ItemUsableIffNoFailure`). The engine goes on exactly as long as some worker is not hung this
  way (`NoDeadlock`), and can settle everything without a restart exactly if none is (`SettlesIffNoneHung`);
  `StuckRun` hangs any number of workers by jobs of one problem.
- An artefact still in use is removed by a cleanup within the buffer exactly if a newer version of its
  problem is stored (`EvictionSafety`).
- A replay with no rows leaves the user's old sorted-set entry behind (`RecalculateLiveUserScore`).
- A replay is right exactly if every row was already judged: a row replayed while still `QUEUE` masks its
  real verdict for good, and the score stays that of the rows judged by then (`ReplayRightIffAllJudged`,
  `ReplayRightIffNoneQueued`, `ReplayScoresJudgedRows`, `QueuedReplayLosesAc`).
- The packed score stops ordering by problems solved exactly when solving all n problems at the last moment
  L after A charged attempts, n·L + 1200·A, costs as much as one problem is worth (`PackedKeyReaches`); far
  beyond that a solved problem ranks below none (`PackedScoreInverts`).
- A job that fails after its first update leaves its submission in the live hash (`LiveUntilVerdict`).
- Stripping zeros keeps every file's content exactly if files with equal stripped names have equal contents
  (`NothingLostIff`); `AcceptedWithLoss` is an accepted directory in which a test's input is replaced.

## Model

| member | source | states |
|---|---|---|
| `Scoring.ComputeUserScores` | leaderboard-service/src/services/scoring.service.ts:18-54 | the whole score is the closed form on arrival-order lists; `score` is 10,000,000 for each solved problem less `penalty`, `solved` is the number of problems with an AC, and `penalty` is the sum over the details of the solved problems' times and 1200 for each charged attempt |
| `Scoring.ScoreIsIcpc` | leaderboard-service/src/services/scoring.service.ts:23-53 | by the ICPC rules, from the submissions alone: totals as above, and for each problem solved iff some status is AC, the least AC time, the number of WA, TLE, MLE and RE before every AC in (time, arrival) order, and a stable sort of its submissions |
| `Scoring.ScanProblems` | leaderboard-service/src/services/scoring.service.ts:23-49 | the loop over the problems, in any order, gives the sums over them and every problem's detail |
| `Scoring.DetailIsIcpc` | leaderboard-service/src/services/scoring.service.ts:26-48 | the detail of one problem by those rules |
| `Scoring.ScanProblem` | leaderboard-service/src/services/scoring.service.ts:26-40 | sort, scan and early exit give the problem's closed-form result |
| `Scoring.SortByTimeIsStable` | leaderboard-service/src/services/scoring.service.ts:26 | the sort is ordered by time, a rearrangement, and keeps equal times in arrival order |
| `Scoring.StableSortIsUnique` | leaderboard-service/src/services/scoring.service.ts:26 | any stable sort by time gives this list, so the host's algorithm does not matter |
| `Scoring.FirstAcIsEarliest` | leaderboard-service/src/services/scoring.service.ts:32-36 | the AC that counts is the least in (time, arrival) order, and there is none iff no AC exists |
| `Scoring.CountBeforeIsCardinality` | leaderboard-service/src/services/scoring.service.ts:37-39 | the number of charged attempts is the size of the set of WA, TLE, MLE, RE entries before the AC in (time, arrival) order |
| `Scoring.SortAndScanIsClosedForm` | leaderboard-service/src/services/scoring.service.ts:26-40 | scanning the sorted list equals the closed form on the unsorted one |
| `Scoring.ProblemResultAppend` | leaderboard-service/src/services/scoring.service.ts:32-40 | how one more arrival changes a problem's result |
| `OrderLaws.ResultPermutation` | leaderboard-service/src/services/scoring.service.ts:26-40 | without a tie, rearranging a problem's submissions keeps its result |
| `OrderLaws.OrderIndependentIffNoTie` | leaderboard-service/src/services/scoring.service.ts:26-40 | every arrival order gives the same result exactly when no charged verdict has the time of the earliest AC |
| `OrderLaws.ScoreAfterOneMore` | leaderboard-service/src/services/scoring.service.ts:42-51 | the exact change of solved count, of penalty and of score when one verdict is appended |
| `OrderLaws.ScoreMonotonicity` | leaderboard-service/src/services/scoring.service.ts:42-51 | a verdict that is not AC never raises the score, and an AC never lowers it while the problem's penalty is within the offset |
| `OrderLaws.PenaltyBoundOver` | leaderboard-service/src/services/scoring.service.ts:42-47 | with times in [0, L], penalty is at most solved times L plus 1200 for each charged attempt |
| `OrderLaws.PackedScoreIsLexicographic` | leaderboard-service/src/services/scoring.service.ts:51 | below the offset bound a higher score means more solved, or as many with less penalty, and conversely |
| `OrderLaws.PackedKeyReaches` | leaderboard-service/src/services/scoring.service.ts:51 | for n ≥ 1 problems, length L and up to A charged attempts: every two records are ordered by problems solved, then by smaller penalty, exactly if n·L + 1200·A is below the offset |
| `OrderLaws.PackedScoreInverts` | leaderboard-service/src/config/env.ts:14 | two records on which the packed score puts fewer solved problems first |
| `OrderLaws.PackedScoreIsExactDouble` | leaderboard-service/src/services/redis.service.ts:38-41 | under the stated bounds the score fits a double's 53 bits |
| `LiveStore.RedisStore.EvalUpdateUserState` | leaderboard-service/src/config/_lua.ts:2-45 | field by field: an id the user already has changes nothing; otherwise id, time and status are appended to the user's list of the problem, the id to the user's ids, and nothing else changes; the returned record is the stored one |
| `LiveStore.RedisStore.ProcessLiveVerdict` | leaderboard-service/src/services/redis.service.ts:18-42 | script, local rescore and separate sorted-set write, for each point at which it may throw |
| `LiveStore.GroupBuckets` | leaderboard-service/src/services/freeze.service.ts:30-46 | grouping puts each row in its own user's and problem's list and no other, in row order |
| `LiveStore.DeliverIsGroupOfDistinct` | leaderboard-service/src/config/_lua.ts:18-38 | any delivery sequence with repeats leaves what filing each distinct verdict once leaves |
| `LiveStore.DeliveryOrderIrrelevant` | leaderboard-service/src/config/_lua.ts:18-44 | two delivery sequences with the same set of verdicts, in any order and with any repeats, give every user the same problems, solved count, penalty and score if nothing ties |
| `LiveStore.OrderIndependentIffNoTies` | leaderboard-service/src/config/_lua.ts:30-35 | all deliveries of a set of verdicts give the same scores exactly when no charged verdict ties with its problem's earliest AC |
| `LiveProtocol.RunKeepsInv` | leaderboard-service/src/tasks/rabbitmq.task.ts:35-47 | in every reachable state every message is in exactly one stage, Redis holds what the scripts made, and every user's sorted-set score is right, or in flight, or due by redelivery |
| `LiveProtocol.QuiescentLeaderboard` | leaderboard-service/src/services/redis.service.ts:18-42 | when everything is acked, the sorted set is exactly the score of every user's record |
| `LiveProtocol.QuiescentLeaderboardIsBatch` | leaderboard-service/src/services/redis.service.ts:34-41 | and, without ties, exactly the batch scores of the published verdicts in whatever row order |
| `LiveProtocol.SwappedWrites` | leaderboard-service/src/services/redis.service.ts:36-41 | two writes of one user performed in the wrong order, answered and acked leave a quiescent state whose score is the record's only if both writes carried the same one |
| `LiveProtocol.SwappableRun` | leaderboard-service/src/services/redis.service.ts:36-41 | a run reaches two such writes |
| `LiveConsumer.CallScript` | leaderboard-service/src/services/redis.service.ts:23-36 | from any protocol state with the message received: what the callback does to Redis up to the script's reply is the protocol's step, it sends the write of the rescored record if answered, and nacks the message otherwise |
| `LiveConsumer.CallWrite` | leaderboard-service/src/tasks/rabbitmq.task.ts:39-46 | from any protocol state with the write in flight: the sorted set afterwards is what the protocol's steps give, and the message is acked iff the write was answered, otherwise back on the queue |
| `LiveRecovery.PathKeepsInv` | leaderboard-service/src/tasks/rabbitmq.task.ts:36-46 | a path of steps extending a run ends in a state with the protocol's invariant |
| `LiveRecovery.AlwaysRecovers` | leaderboard-service/src/tasks/rabbitmq.task.ts:35-47 | every run, whatever faults it saw, can be extended by receiving, processing and acking alone to a state where everything published is recorded and acked and the sorted set is the score of every record |
| `Ranking.PositionInterval` | leaderboard-service/src/services/leaderboard.service.ts:37-45 | in any ranking a user's position lies between #higher and #higher-or-equal |
| `Ranking.ScoresByPosition` | leaderboard-service/src/services/freeze.service.ts:53-55 | any two rankings of one score table show the same score at each position |
| `Ranking.RevOrderIsRanking` | leaderboard-service/src/services/leaderboard.service.ts:124 | the reversed sorted-set order (score, then member name, both descending) lists every user once by falling score |
| `Ranking.RevOrderTies` | leaderboard-service/src/services/leaderboard.service.ts:124 | equal scores stand in falling order of the member names |
| `Ranking.StringLessMeaning` | leaderboard-service/src/services/leaderboard.service.ts:124 | names are compared by their first difference, a proper prefix being less |
| `Freeze.GroupRows` | leaderboard-service/src/services/freeze.service.ts:30-46 | the grouping loop computes the grouping fold |
| `Freeze.ComputeStandings` | leaderboard-service/src/services/freeze.service.ts:30-55 | standings hold every grouped user once with the user's own score, in falling order |
| `Freeze.ExecuteContestHardFreeze` | leaderboard-service/src/services/freeze.service.ts:15-96 | all or nothing: a failure before COMMIT takes effect leaves table and flag alone, from then on they hold a ranking numbered from 1; Redis is emptied exactly if the unlink took effect; a COMMIT or unlink whose reply is lost reports an error all the same |
| `Freeze.LiveAndFrozenAgree` | leaderboard-service/src/services/freeze.service.ts:53-77 | both boards show the same score at every rank and every rank lies in [1 + #higher, #higher-or-equal] |
| `Standings.LiveBoardIsFrozenBoard` | leaderboard-service/src/services/freeze.service.ts:32-77 | after any run, once all is acked and nothing ties, live and batch records agree for every user and both boards show the same scores rank by rank |
| `Leaderboard.PagesPartition` | leaderboard-service/src/services/leaderboard.service.ts:73-98 | pages 1 to the announced number concatenate to the whole ranking |
| `Leaderboard.PageNonEmptyIff` | leaderboard-service/src/services/leaderboard.service.ts:76-81 | a page shows something exactly when it is one of the announced ones |
| `Leaderboard.ZRangeIsPage` | leaderboard-service/src/services/leaderboard.service.ts:121-124 | the inclusive index range of a page from 1 on is that page |
| `Leaderboard.RanksRightIffPagePositive` | leaderboard-service/src/services/leaderboard.service.ts:121-136 | when a page shows live rows, each row's rank is its user's position on the live board exactly for pages from 1 on |
| `Leaderboard.PageZeroShowsRows` | leaderboard-service/src/services/leaderboard.service.ts:121-127 | page 0 shows live rows whenever anybody is on the live board |
| `Leaderboard.GetLeaderboardPageFromRedis` | leaderboard-service/src/services/leaderboard.service.ts:118-146 | rows of the range with their ranks and rescored records, nothing for an empty range, and a throw when a listed user has no record |
| `Leaderboard.LiveRangeShows` | leaderboard-service/src/services/leaderboard.service.ts:132-143 | row i of a live answer has the rank the page number gives, the user at that place of the range, and that user's own rescored record |
| `Leaderboard.LivePage` | leaderboard-service/src/services/leaderboard.service.ts:118-146 | for pages from 1 on the live answer is that page of the whole live board |
| `Leaderboard.KeysetIsSlice` | leaderboard-service/src/services/leaderboard.service.ts:100-116 | with contiguous ranks any answer to the keyset query is the offset slice |
| `Leaderboard.FrozenPage` | leaderboard-service/src/services/leaderboard.service.ts:100-116 | the keyset answer is the requested page of the frozen board, and its first page for a page number below 1 |
| `Leaderboard.FrozenPageShows` | leaderboard-service/src/services/leaderboard.service.ts:100-116 | after a freeze, row i of a frozen page from 1 on has rank (page - 1)·size + i + 1, the user at that place of the ranking, and that user's rescored record |
| `Leaderboard.GetLeaderboardPage` | leaderboard-service/src/services/leaderboard.service.ts:73-98 | for any page number: the live range if it has rows, otherwise the database's answer with the stored ranks, users and scores, and the announced totals; an unknown contest is reported only when there is no live row, and a missing record fails the call |
| `Leaderboard.GetTotalLeaderboardEntries` | leaderboard-service/src/services/leaderboard.service.ts:148-163 | the length of the live ranking, or of the frozen table when that is empty |
| `Leaderboard.GetUserLeaderboardRow` | leaderboard-service/src/services/leaderboard.service.ts:34-71 | the row is the asked user's: live, with position plus one as rank and the rescored record, for any ranked user but the first; otherwise what a stored row holds, if there is one |
| `Leaderboard.StoredRowShows` | leaderboard-service/src/services/leaderboard.service.ts:55-70 | after a freeze a stored row's rank is its user's place in the ranking and its score that user's rescored record |
| `Leaderboard.RecalculateLiveUserScore` | leaderboard-service/src/services/leaderboard.service.ts:165-188 | with at least one row the user's record and score become the batch ones and no other user's change; with none the sorted-set entry stays |
| `Leaderboard.ReplayEqualsBatch` | leaderboard-service/src/services/leaderboard.service.ts:169-187 | grouping one user's rows gives that user's part of grouping the contest |
| `Leaderboard.ReplayMasksLaterVerdicts` | leaderboard-service/src/services/leaderboard.service.ts:178-187 | after a replay of a row every delivery with its id changes nothing |
| `Leaderboard.ReplayRightIffAllJudged` | leaderboard-service/src/services/leaderboard.service.ts:165-188 | whichever real verdicts are delivered after a replay, the records are the batch grouping of the judged rows exactly if the replayed rows already were those |
| `Leaderboard.ReplayRightIffNoneQueued` | leaderboard-service/src/services/leaderboard.service.ts:165-188 | when rows are either queued or final, the replay is right exactly if no row is queued |
| `Leaderboard.ReplayScoresJudgedRows` | leaderboard-service/src/services/leaderboard.service.ts:165-188 | whichever real verdicts are delivered after a replay, every user's score is that of the rows that were not queued |
| `Leaderboard.QueuedReplayLosesAc` | leaderboard-service/src/services/leaderboard.service.ts:178-187 | a row replayed as QUEUE whose AC then scores nothing |
| `Decimal.AtoiItoa` | execution-engine/engine/cache.go:106 | parsing a printed version gives the version back |
| `Decimal.SplitFirst` | execution-engine/engine/cache.go:105 | splitting after a part without separator yields that part and the split of the rest |
| `Decimal.ItoaPlaces` | execution-engine/models/job.go:78 | numerals are written with the usual digits, the most significant first |
| `CacheKeys.SplitKey` | execution-engine/engine/cache.go:105-106 | `id_version` splits back to id and version when the id has no underscore |
| `CacheKeys.AllKeysSplit` | execution-engine/engine/cache.go:104-106 | every such key has the second part the cleaner indexes |
| `CacheKeys.KeptIsNewestPerProblem` | execution-engine/engine/cache.go:114-120 | what is kept is one key for each valid problem with an artefact, its largest stored version, and no other |
| `Cache.KeyIsKey` | execution-engine/engine/cache.go:179 | an artefact's key is its problem id, an underscore and its version, and splits back to them |
| `Cache.FreshForFiveMinutes` | execution-engine/engine/cache.go:146-171 | a row loaded at t is served by every lookup before t plus 300 seconds and by none after |
| `Cache.DbCache.GetOrLoad` | execution-engine/engine/cache.go:143-174 | a fresh entry is served as it is; otherwise the row is served and stored until 300 seconds after the load, and a failed load stores nothing |
| `Cache.S3Cache.GetOrLoad` | execution-engine/engine/cache.go:176-208 | a stored item is handed out unchanged, a missing one is downloaded once, and a failed download stores no item |
| `Cache.GetOrLoad` | execution-engine/engine/cache.go:129-141 | a success names the directory of an artefact that is in the store, for the version the fresh database entry names |
| `Cache.DropExpired` | execution-engine/engine/cache.go:94-101 | exactly the entries more than 300 seconds past their expiry go |
| `Cache.LatestVersions` | execution-engine/engine/cache.go:103-112 | for each problem the largest stored version, attained and never exceeded |
| `Cache.DropStale` | execution-engine/engine/cache.go:114-124 | removes exactly the stale artefacts with their directories, and every surviving one is still on disk |
| `Cache.CleanCache` | execution-engine/engine/cache.go:81-127 | nothing happens up to 30 artefacts; above that exactly the newest artefact of each problem within expiry and buffer survives, on disk too |
| `CacheRuns.RunKeepsInv` | execution-engine/engine/cache.go:81-208 | every interleaving of workers, cleaner and clock keeps lock ownership, one load per resident key, and a live entry behind everything served |
| `CacheRuns.AnsweredIsServed` | execution-engine/engine/cache.go:143-174 | whoever a database step answers is recorded as served that problem and version at that time |
| `CacheRuns.HandedIsRecorded` | execution-engine/engine/cache.go:176-193 | whoever an artefact step hands an item gets the stored one, and that is recorded |
| `CacheRuns.OneLoadPerResidency` | execution-engine/engine/cache.go:176-208 | between two evictions of a key there is at most one successful download and everyone is handed the same item |
| `CacheRuns.NoDeadlock` | execution-engine/engine/cache.go:81-208 | with a lookup or cleanup under way, one of them has a step in every reachable state, whatever the workers already served do |
| `CacheRuns.EvictionSafety` | execution-engine/engine/cache.go:88-124 | only a cleanup evicts; one with clock at most t plus buffer evicts a version served at t exactly if a newer version of the problem is stored, and the newer one stays |
| `CacheRuns.InUseStaysStored` | execution-engine/engine/cache.go:88-124 | over any number of steps, once a version served at t or a newer one is stored, such a version stays stored while the clock is at most t plus buffer |
| `CacheRuns.CleanerNeverPanics` | execution-engine/engine/cache.go:104-106 | in every reachable state the cleaner's key indexing is in range |
| `CacheCalls.LookUp` | execution-engine/engine/cache.go:143-174 | a database lookup with no other worker in between is a path of the protocol's steps: store, answer and lock are those of the state it ends in |
| `CacheCalls.FetchArtefact` | execution-engine/engine/cache.go:176-208 | the same for an artefact lookup: keys, disk, answer and lock |
| `CacheCalls.CleanUp` | execution-engine/engine/cache.go:81-127 | the same for a run of the cleaner: both stores and the disk |
| `CheckerCompile.CompileCheckerCode` | execution-engine/worker/compile.go:10-53 | a call with no other worker in between, from a state with the lock free, is a path of the protocol's steps: binary, answer and lock are those of the state it ends in, and the lock stays taken iff there is no binary |
| `CheckerCompile.OneBinaryPerItem` | execution-engine/worker/compile.go:12-52 | one assignment over an item's life, one compiler at a time, and all workers of a run are given the same binary |
| `CheckerCompile.ItemUsableIffNoFailure` | execution-engine/worker/compile.go:39-45 | waiting workers have a step exactly as long as no earlier step of the run was a failed compile, and after one nobody ever gets a binary |
| `JobDelivery.ExactlyOnePlace` | execution-engine/engine/rabbitmq.go:54-88 | every published job is in exactly one place in every reachable state and is settled once and for good |
| `JobDelivery.SettledForGood` | execution-engine/worker/worker.go:62-77 | settled jobs stay settled the same way |
| `JobDelivery.SettledAsItWent` | execution-engine/worker/worker.go:71-77 | in every reachable state a job is acked iff an earlier step finished it, or failed its compile, with the verdict saved, and nacked iff it was undecodable, failed early, or was settled unsaved |
| `JobDelivery.HandOffNeverBlocks` | execution-engine/engine/rabbitmq.go:86 | the send into the channel is always possible, and a buffered job always has an idle worker |
| `JobDelivery.RunKeepsInv` | execution-engine/engine/rabbitmq.go:32 | in every reachable state no job is lost or duplicated and no more than W deliveries are unacked |
| `JobProgress.NoDeadlock` | execution-engine/worker/compile.go:12-45 | while jobs are on their way to the workers, a step other than a publication or a crash is possible exactly if some worker is not hung on a locked item |
| `JobProgress.HungByFailure` | execution-engine/worker/compile.go:39-45 | an item is locked for good only by an earlier step of the run in which its checker failed to compile |
| `JobProgress.SettlesIffNoneHung` | execution-engine/worker/worker.go:62-77 | some path without restart or new job settles everything published exactly if no worker is hung |
| `JobProgress.PathToSettled` | execution-engine/worker/worker.go:62-77 | and then one on which nothing goes wrong, which nacks nothing and acks all that was not nacked before |
| `JobProgress.StuckRun` | execution-engine/worker/compile.go:39-45 | for any number of workers, a run after which all hang while a job waits, and only publications and crashes are possible |
| `JobDelivery.Consume` | execution-engine/engine/rabbitmq.go:59-88 | from any state keeping the invariant, consuming dispatched deliveries is a path of protocol steps that never waits for room: the channel grows by the decodable ones in order, the others are nacked, nothing else moves |
| `Judging.UserStatus` | execution-engine/worker/formatter.go:11-44 | a user run's status from its report alone: AC, TLE, NZEC, INT, the four named signals and RE for any other |
| `Judging.CheckerStatus` | execution-engine/worker/execute.go:36-68 | a checker run's status from its report alone |
| `Judging.CompileStatus` | execution-engine/worker/compile.go:55-85 | user code without a binary: CE, with the compiler's cost, unless its report is missing, XX or clean, and then INT without cost |
| `Judging.CheckerStatuses` | execution-engine/worker/execute.go:36-68 | a checker's result is AC, WA, FAIL or INT; WA exactly for exit codes 1 and 2 |
| `Judging.RecordedCost` | execution-engine/worker/formatter.go:57-66 | an entry's time and memory are the user run's, and zero for INT and FAIL |
| `Judging.VerdictMeaning` | execution-engine/worker/worker.go:199-244 | the verdict is AC iff user and checker pass every test, otherwise it is the status of the first test not passed; earlier entries are AC and entry i has number i + 1 |
| `Judging.OutcomeMeans` | execution-engine/worker/worker.go:172-245 | the verdict of a job from the reports of compiles and runs alone: AC iff both compiles succeed, there are tests, and every user and checker run is clean; otherwise decided by the first test that is not |
| `Judging.MillisCutOff` | execution-engine/worker/worker.go:134-135 | recorded times are whole milliseconds, cut off toward zero |
| `Judging.JudgedIsUnique` | execution-engine/worker/worker.go:199-244 | the outcomes determine the recorded results |
| `Judging.CheckerCostNeverLeaks` | execution-engine/worker/worker.go:214-236 | checkers that agree on statuses give the same results and the same maxima, whatever they cost |
| `Judging.Worker.RunTest` | execution-engine/worker/worker.go:199-244 | announces the test and gives its entry: the user's result unless that is AC, otherwise the checker's status, with the user's cost or none |
| `Judging.Worker.RunTests` | execution-engine/worker/worker.go:199-244 | the loop records exactly the judged prefix and announces exactly the tests it runs |
| `Judging.Worker.ExecuteWorker` | execution-engine/worker/worker.go:172-245 | one entry for a checker or user compile that fails or a problem without tests, otherwise the judged prefix |
| `Judging.Worker.PostExecute` | execution-engine/worker/worker.go:129-169 | the verdict takes the last status and the largest costs; only a saved one is announced, and reported if rated |
| `Judging.Worker.PublishStatusUpdate` | execution-engine/worker/worker.go:247-270 | the update sent last has the submission and the text, the verdict's time and memory or zero, and is not running exactly when there is a verdict whose status is that text |
| `Judging.Worker.RunWorker` | execution-engine/worker/worker.go:84-117 | succeeds iff every step did, has a verdict unless it failed before judging, whose status is what the sandbox reports mean, and sends exactly the job's trace of updates |
| `Judging.JobTraceShape` | execution-engine/worker/worker.go:247-266 | a job whose verdict was saved sends exactly one update that is not running, its last; any other job only running ones |
| `Judging.JobTraceTexts` | execution-engine/worker/worker.go:87-204 | the trace reads Running, Compiling, Running on test k for each test run, and then the verdict with its costs |
| `VerdictFlow.ChargedVerdicts` | leaderboard-service/src/services/scoring.service.ts:33-39 | of the engine's verdicts the leaderboard counts AC as solved and charges for WA, TLE and RE alone |
| `VerdictFlow.StatusTextsDiffer` | execution-engine/worker/worker.go:262-264 | different statuses have different texts |
| `LiveStatus.StatusService.OnMessage` | status-service/src/services/status.service.ts:24-34 | the hash stays the fold of all messages so far |
| `LiveStatus.ActiveIffLastRunning` | status-service/src/services/status.service.ts:24-34 | the hash holds exactly the submissions whose last message was running, with its text |
| `LiveStatus.InterleavingIrrelevant` | status-service/src/services/status.service.ts:24-34 | logs that agree submission by submission give the same hash |
| `LiveStatus.LiveUntilVerdict` | status-service/src/services/status.service.ts:28-32 | in publish order a job's submission is live from its first update to its verdict, and stays live if the job failed |
| `LiveStatus.GoneIffVerdictLast` | execution-engine/worker/worker.go:263-265 | when all updates of a completed job arrived in any order, the submission left the hash exactly if the verdict's came last |
| `LiveStatus.AddStatusFromRedis` | status-service/src/services/status.service.ts:68-81 | for any rows: a row is overwritten iff it is its submission's first, a row of that submission is queued, and the hash has a text for it |
| `LiveStatus.OverlayShowsLastMessage` | status-service/src/services/status.service.ts:68-81 | on distinct rows, a stored status other than QUEUE never changes and a queued row shows the last running message |
| `LiveStatus.StoredStatusesKeptIff` | status-service/src/services/status.service.ts:69-77 | over arbitrary rows, stored statuses other than QUEUE are all kept exactly when no such row comes first for a submission that also has a queued row and a different live text |
| `TestFiles.NamesAgree` | execution-engine/models/job.go:77-80 | the importer's padded name of a test is the engine's |
| `TestFiles.NameLength` | execution-engine/models/job.go:77-84 | a test's file name is its numeral padded with zeros to the length of the count's numeral, and its answer's name is that and .a |
| `TestFiles.NamesDistinct` | execution-engine/models/job.go:77-84 | names of different tests differ whatever the widths, and no input file is an answer file |
| `TestFiles.FilesUpToCount` | execution-engine/models/job.go:77-92 | the engine opens two files for each test, all different |
| `TestFiles.StripUndoesPadding` | polygon-service/src/services/polygon/polygon-tests.service.ts:50 | stripping leading zeros undoes padding of any width for tests from 1 on |
| `TestFiles.StripMeaning` | polygon-service/src/services/polygon/polygon-tests.service.ts:50 | stripping takes away all leading zeros and nothing else |
| `TestFiles.TestsDir.FixTestCases` | polygon-service/src/services/polygon/polygon-tests.service.ts:43-56 | fails iff some rename is refused; otherwise every entry has gone to its stripped name, renamed ones over others, in any listing order |
| `TestFiles.TestsDir.ValidateTestCases` | polygon-service/src/services/polygon/polygon-tests.service.ts:58-88 | from ten tests on accepts exactly the directories whose entries are the files the engine opens; below ten exactly those whose stripped names are; every accepted name is as long as the count's numeral, answers two longer |
| `TestFiles.TestsDir.CheckTestCases` | polygon-service/src/services/polygon/polygon-tests.service.ts:62-88 | count, kind and name checks together accept exactly the directories holding the engine's files and nothing else |
| `TestFiles.FixedIsPackage` | polygon-service/src/services/polygon/polygon-tests.service.ts:60 | what a directory must look like before stripping to be a package after it, both ways |
| `TestFiles.PaddedPackageAccepted` | polygon-service/src/services/polygon/polygon-tests.service.ts:59-60 | below ten tests a package padded to any widths is accepted |
| `TestFiles.NothingLostIff` | polygon-service/src/services/polygon/polygon-tests.service.ts:48-55 | stripping keeps every entry's content under its stripped name exactly if entries with equal stripped names have equal contents |
| `TestFiles.NothingOverwritten` | polygon-service/src/services/polygon/polygon-tests.service.ts:54 | in particular if as many entries are left as there were |
| `TestFiles.AcceptedWithLoss` | polygon-service/src/services/polygon/polygon-tests.service.ts:58-68 | a directory accepted for one test in which, in any listing order, the file 01 replaces the file 1 |

## Left out

- HTTP controllers, routing, authentication, environment parsing, S3 and zip transfer, XML and HTML extraction, test generation, and running the sandbox: plumbing around libraries.
- submission-service/cache.go and the SQL text building of status-service: the same double check again, and finitely many cases.
- Language lookup, clamping of limits and the JSON key reviver: easy.
- Graceful shutdown: closing the job channel races with the consumer, and nothing is claimed there.
- The freeze and a forced recalculation running beside live verdicts: they are single calls here, not steps of `LiveProtocol`. A verdict processed after the freeze recreates the Redis keys from partial data.
- A statement failing in the middle of a forced recalculation: `RecalculateLiveUserScore` takes the rows as given and every write as made.
- The script reply and the write's answer are separate waits of the callback, so `CallScript` and `CallWrite` model it in two parts; `ProcessLiveVerdict` is the same with nothing in between, as a forced recalculation runs it.
- Verdict messages that cannot be parsed: the callback nacks them back onto the queue each time, which `LiveProtocol` covers only as repeated `FailBeforeScript`.
- Several consumer instances: their sorted-set writes are not ordered, and `SwappedWrites` shows the consequence.
- Widths of machine integers: versions, ranks and times are unbounded, so an `Atoi` overflow is not modelled. Scores are bounded by `PackedScoreIsExactDouble`.
- Run times are real numbers, not doubles; milliseconds are truncated as in the source.
- Result texts, snippets, contest ids in messages, and the scoring details' copy of each submission list.
- Rows of a frozen page: the query does not select the score, so the JSON lacks it; the model's row carries it.
- The engine emits statuses such as SIGSEGV and NZEC that scoring never charges; status is an arbitrary text in `Scoring`, and which texts are charged follows scoring.service.ts:37.
- The panic when a job fails before it has a verdict is `FailEarly` in `JobDelivery`: `RunWorker` says when that is.
- The status overlay is not awaited in the source, so a response may be sent before it; the model runs it to its end.
- Other writers to the test directory while it is being fixed, and symbolic links followed by a rename.
- CompileCheckerCode: one call with no other worker in between; several callers at once are in the state machine beside it.
- The artefact lookup inside CompileCheckerCode: its error is dropped there, so a failed download after an eviction dereferences a missing item and panics (execution-engine/worker/compile.go:11-12). In `CacheRuns` the worker only goes back to `Idle`.
- GetOrLoad: one undisturbed call; interleavings are in `CacheRuns`.
- Which item a worker of `JobDelivery` gets hold of is left open, and so is whether it was compiled before: the caches are not part of that state.
- RunTest: that the checker is not even run after a user run that is not AC; runs are given as functions of the test.
- A page parameter that is not a number.
