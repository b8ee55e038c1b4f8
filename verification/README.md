# The button service, verified

A Dafny model of the button service: a stateless API appends accepted click batches to a
partitioned log; two consumer groups fold that log into Redis under at-least-once delivery;
a control loop moves the proof-of-work difficulty; a snapshotter copies Redis to Postgres and
back. Most results are about whole runs: any interleaving of processes, with crashes and failed
commands between any two commands. Where a property fails in some runs, the theorem says exactly
in which classes of runs it holds.

`dafny verify dfyconfig.toml` checks everything.

## How the files fit together

- The click pipeline. `Token`, `ClickEvent`, `Idem` and `Clicks` are its parts. `Pipeline` is
  the protocol: one step is one Redis command, one append, one poll, one commit, one restart or
  a passage of time. `Conservation`, `Dedup`, `Replay`, `Agreement` and `EveryRun` prove what its
  runs keep, `Drain` that a consumer without faults gets to the end.
  `CounterWorker` and `ProgressWorker` hold the two consumer loops as the source writes them,
  and prove that a round of either loop is a run of one consumer of the protocol
  (`ConsumerRuns`), so the theorems about runs hold of the loops.
- The views. `Views` says what the keys of the progress group mean after any sequence of
  applied events, `ProgressRuns` that the loop's rounds are such sequences, with every error, and
  `Interleaved` that consumers which run side by side, command by command, amount to one;
  `Calendar`, `Streak`, `Achievements`, `Troll` and `Leaderboard` are the functions underneath.
- The control loop. `Controller` is its arithmetic over reals, `TickLoop` the loop, `CalmLoad` its
  runs under a given load, `Difficulty` the two-key hand-over to the API, `PairWrites` what the loop
  writes to the two keys, as the writer of that hand-over, `Milestones` the global claims.
- The copy in Postgres. `Snapshot` holds the methods with their loops, `SnapshotRuns` the
  copy made while the workers go on.
- `Migrate` is the rollback guard, `Work` the target and the solver.

Where the source works step by step on state, a class or a method with loops does the same and
is proved equal to a specification function; the lemmas are about these functions.

## Where the code and its comments differ

The model follows the code. Each difference is a lemma.

- "A crash re-delivers rather than drops" (`internal/counterworker/counterworker.go:4-5`): the
  record is delivered again, but the key that its first delivery left makes the second skip it
  (`CounterWorker.CrashDropsClick`). If the process restarts after every Redis error, a crash or an
  error between the SETNX and its effect is the only way a click can be lost
  (`Agreement.ExactIffNoneDropped`); if it may run on, so is a record that no SETNX ever reaches
  (`EveryRun.ExactIffAllCounted`).
- "Stops before committing (so the batch re-delivers)"
  (`internal/counterworker/counterworker.go:50-52`): the client's position is already behind the
  batch, so the next successful batch commits it away. It is delivered again if and only if the
  process restarts first (`CounterWorker.RedeliveredIffRestart`).
- "Best is the high-water mark and never decreases" (`internal/streak/streak.go:19-20`) holds of
  `Advance`, but a failed read of the stored streak is taken for a user without one, and the
  save that follows overwrites the old best (`Views.BestFallsIff`).
- "One step per 30s" (`internal/pow/controller.go:20-21`): a restart whose GET of pow:L fails goes
  on with L = 1, and one that comes after SETs of pow:L were lost goes back by several steps at
  once. The slew limit holds in every run if and only if restarts read pow:L and find at most one
  SET of it missing (`TickLoop.SlewIff`, `TickLoop.FailedGetDropsL`, `TickLoop.LostSetsDropL`).
- The estimate does not survive a restart, so hysteresis does not either. L is never lowered within
  49 s of a raise if and only if restarts come more than 19 s after it and find L where it was, or
  come more than 49 s after it (`TickLoop.FlipFlopIff`).
- L should climb under load only. A start whose GET of stats fails takes the whole count for the
  first sample. No pass raises L in any run of a class if and only if the load is at most 440 per
  second over each sample and that GET does not fail (`CalmLoad.CalmIff`); if it fails, L can rise
  under no load at all, and `CalmLoad.BlindStartIff` says exactly when.
- "Raise-only maxbatch ... no concurrent duplicate can race" (`internal/progressworker/progressworker.go:123-124`):
  duplicates cannot, but two records of one user can, when a rebalance lets two consumers work for
  the user; the second pipeline may lower the maximum. The daily hashes are exact in every
  interleaving if and only if that does not happen (`Interleaved.MaxIffAlone`).
- The pair that a challenge is issued with is torn by more than one step in some run if and only if
  restarts may fail to read pow:L, or L may change again after a lost SET; crashes between the two
  SETs are harmless (`Difficulty.TearingIff`).
- `Get`'s ok (`internal/difficulty/difficulty.go:30`) means that both numbers have been loaded if
  and only if the call began after a refresh had completed (`Difficulty.OkMeansLoadedIffWarm`). A
  call under way during the first refresh can miss L, or have L and miss the interval; the
  challenge then carries the interval 0, its SETNX sets no expiry, and the user is locked out
  (`Difficulty.ColdGetWithoutInterval`, `Clicks.ZeroIntervalLocksOut`).
- The numbers in Postgres never fall in any run if and only if Redis is never lost while the worker
  runs on, since only a starting process restores (`SnapshotRuns.GrowIffNoLoss`).
- "Reverses exactly the one most-recently-applied migration" (`internal/migrate/migrate.go:80`)
  holds of every Down of every run if and only if no Up applies anything while a Down is between
  its check and its reversal, or there are at most two versions (`Migrate.TopsIffUpsWait`). When
  only Ups come in between and one applies something, that Down reverses an older version
  (`Migrate.LatestIffNoUpBetween`), and leaves a gap that no Up can fill until every version above
  it is reversed (`Migrate.GapBlocksUps`, `Migrate.GapStaysWhileCovered`). With another Down in
  between as well, such an Up may do no harm (`Migrate.UpMayRestore`).
- The un-throttle after a failed produce deletes the user's key, whoever holds it by then. It is
  safe if and only if failures come before the least interval is over
  (`Clicks.SpacedIffPromptFailures`); that interval is 2 s, while the producer gives up after
  10 s (`internal/kafka/kafka.go:18`, `Clicks.ConfiguredTimeoutIsTooLong`).
- Daily hashes expire 48 h and weekly keys 14 d after their last write, whatever day they are for. A
  daily hash can lose batches once events are applied 86,401 s after their second, a weekly board
  and a weekday set only from 604,801 s on; nothing else depends on lateness (`Views.DaysIffInTime`,
  `Views.WeeksIffInTime`, `Views.WeekdaysIffInTime`, `Views.LastingMatch`).
- "Idempotent full refresh" (`internal/leaderboard/board.go:15-17`): idempotent, yes; a full
  refresh only if every member of the board has a row (`Leaderboard.RefreshIffCovered`).

## What is assumed

- One clock for all processes and Redis; a key is gone when the clock has reached its expiry.
- Challenge ids are unique, and a challenge is signed for one user, so ids do not change hands.
- The partition of a record is any function of the user. A poll that returns records of several
  partitions is an interleaving of its parts.
- `Agreement` is about one consumer per partition, which restarts after a Redis error before it
  does anything else; `Conservation`, `Dedup`, `Replay` and `EveryRun` are about any number,
  whatever they do.
- One live controller and one snapshotter, and a process that restores before it consumes, as
  `cmd/the-button-worker/main.go:59-65` does.
- Asia/Ho_Chi_Minh is seven hours ahead of UTC at all times, and dates have four-digit years.
- Scores are naturals below 2^53, where a float64 is exact; rates and estimates are reals.
- The hash, the MAC and the JSON codecs are any functions; encodings round-trip.

## Model

| member | source | states |
|---|---|---|
| Clicks.Api.Submit | internal/clicks/clicks.go:24-43 | One call, with a lost reply to the SETNX or a lost DEL that may have taken effect, and a failed produce that may be stored: throttle, log and answer are those of the specification; SubmitMeans, AnswerMeans and FailureMeans say what that is. |
| Clicks.Api.SubmitClicks | internal/server/server.go:175-209 | Accepted if and only if the user is known, the payload is the user's own, live, large enough for the count and worked for at its level, the key is free, and SETNX and produce are acknowledged; a gate that fails gives its answer and touches nothing; an accepted batch is answered with the next challenge if one can be issued. |
| Clicks.Api.Issue | internal/server/server.go:134-166 | A challenge with the cached pair, or none without a pair, an id or a signature. |
| Clicks.EntitledIff | internal/server/server.go:176-197 | The gates let exactly the entitled calls through: expiry with leeway, user, batch size, and a hash value below 2^256 / (w0 count l); any other live payload is an invalid argument. |
| Clicks.IssuedIsGood | internal/server/server.go:134-166 | An issued challenge carries the cached pair and the batch limit, and is good for its user and nobody else, for at least 329 and at most 330 seconds. |
| Clicks.SubmitMeans | internal/clicks/clicks.go:15-43 | An accepted batch was not throttled before, is for its interval (for good if that is zero), and is in the log once more; a throttled call changes nothing; no other user's throttle changes. |
| Clicks.AnswerMeans | internal/clicks/clicks.go:24-43 | Accepted if and only if the key was free and SETNX and produce were acknowledged; exhausted if and only if it was held and the SETNX was answered; unavailable otherwise; and when the log has the batch. |
| Clicks.FailureMeans | internal/clicks/clicks.go:36-41 | After a failed produce whose DEL took effect the user is not throttled at any later time; if it did not, or if the SETNX was stored and its reply lost, for the interval. |
| Clicks.SubmitIsSteps | internal/clicks/clicks.go:24-43 | One call is a run of the throttle protocol: SetNX, then Finish, or Unthrottle after a failed produce, with the same key. |
| Clicks.RunIsSound | internal/clicks/clicks.go:25-41 | In every run in which failed produces are undone within the least interval, the batches of a user that passed and stand are spaced by their intervals, and the key belongs to the last one. |
| Clicks.LateDeleteLetsPass | internal/clicks/clicks.go:37-41 | For every delay from the least interval on: a late DEL removes the next request's key and a third one passes at once. |
| Clicks.SpacedIffPromptFailures | internal/clicks/clicks.go:24-43 | The throttle spaces a user's batches in every run if and only if failed produces are undone before the least interval is over. |
| Clicks.ConfiguredTimeoutIsTooLong | internal/kafka/kafka.go:13-20 | With the producer's 10 s and the least interval of 2 s the spacing fails in some run; it would hold in all exactly for a timeout below 2 s. |
| Clicks.ZeroIntervalLocksOut | internal/clicks/clicks.go:25 | A key that was set with the interval 0 has no expiry: in every run with prompt failures, no batch of the user passes any more. |
| Idem.FirstSee | internal/idem/idem.go:14-20 | True exactly for the caller whose command stored the key; a lost reply may have stored it and still reads as an error. |
| Conservation.DoKeepsBalance | internal/counterworker/counterworker.go:84-101 | Every step of a consumer keeps: the counters equal what the applied wins are worth, and a win is worked on by one consumer at most. |
| Conservation.RunKeepsBalance | internal/counterworker/counterworker.go:53-101 | That holds after every run. |
| Conservation.Conservation | internal/counterworker/counterworker.go:84-101 | In every run, counter:total plus the clicks lost between a SETNX and its effect equals what the SETNX wins are worth; accepted_total is at most the number of applied wins; the same for the sum of the board and for each user on it. |
| Dedup.NextKeepsGuarded | internal/pow/token.go:87-97 | With deliveries less than 270 s late, every step keeps: a challenge that was won has a live key whenever a record of it can still be delivered. |
| Dedup.PromptRunKeepsGuarded | internal/idem/idem.go:14-20 | So in every such run, with any number of consumers, crashes and re-deliveries, neither group applies a challenge twice. |
| Dedup.LateDelivery | internal/counterworker/counterworker.go:27-30 | For every delay of 270 s or more there is a run that applies a challenge of one click twice, and counter:total is 2: accepted early and late in its life, the late record delivered after the key of the first has expired. |
| Dedup.OnceIffPrompt | internal/counterworker/counterworker.go:27-30 | Once per challenge in every run if and only if every delivery happens less than 270 s after acceptance: 600 s of key, 330 s of token. |
| Replay.RunKeepsLogged | internal/counterworker/counterworker.go:84-101 | In every run, whatever a group has claimed is the click of a record in the log. |
| Replay.PromptRunPaysOnce | internal/counterworker/counterworker.go:84-101 | In every run with deliveries less than 270 s late: counter:total, the sum of lb:alltime and each user's score are at most one answer for each challenge issued (to the user), however often it was answered and delivered. |
| Replay.PaidOnceIffPrompt | internal/counterworker/counterworker.go:27-30 | No challenge pays for more than one of its answers, in every run with any number of consumers, if and only if every delivery happens less than 270 s after acceptance. |
| Drain.DoSkipsNothing | internal/counterworker/counterworker.go:84-101 | In either group: without a fault, a consumer that is fine stays fine and moves on by one record at most, which then does not decode or has its key. |
| Drain.SeeSkipsPoison | internal/counterworker/counterworker.go:85-89 | A record that does not decode changes nothing but the position. |
| Drain.CalmRunSkipsNothing | internal/progressworker/progressworker.go:80-111 | So over any actions without a fault: no record is passed that decodes and has no key. |
| Drain.CanDrain | internal/progressworker/progressworker.go:66-95 | From wherever a consumer that is fine stands, with whatever records ahead, it can get to the end of its partition and commit there, with every record done. |
| Drain.RestartCanDrain | internal/kafka/kafka.go:29-38 | After a restart it always can, from the committed offset. |
| Agreement.DoKeepsOrder | internal/counterworker/counterworker.go:53-101 | With one consumer per partition that restarts after an error, every step keeps: the wins are exactly the first records of their challenges in the processed part of the log. |
| Agreement.RunKeepsOrder | internal/clickevent/clickevent.go:24-26 | That holds after every run of the whole system, because a challenge is bound to a user and a user to a partition. |
| Agreement.RunOrphans | internal/counterworker/counterworker.go:90-101 | In every run, rebalances included, a win without effect and without a consumer that works on it exists if and only if a crash, a rebalance or an error fell between a won SETNX and its effect, or the reply of a SETNX that won was lost. |
| Agreement.ExactIffNoneDropped | internal/counterworker/counterworker.go:84-101 | With the log drained, with one consumer per partition that restarts after an error, and with Redis errors anywhere, the total is what the log is worth, each challenge counted once by its first record, if and only if no claimed click was dropped by a crash or an error; the same for the sum of the board. |
| Agreement.ClaimedIffFirst | internal/progressworker/progressworker.go:97-111 | A group has claimed a click if and only if it is the first record of its challenge in its user's partition. |
| Agreement.TwoGroupsAgree | internal/progressworker/progressworker.go:115-147 | With one consumer per partition that restarts after an error, both groups drained and nothing dropped, counter:total equals the sum of lb:alltime, each score is what the user's first records are worth, and both groups claimed the same clicks. |
| EveryRun.RunReaches | internal/counterworker/counterworker.go:84-92 | In every run with deliveries less than 270 s late, a challenge has won in a group exactly when some SETNX of the group on one of its records took effect. |
| EveryRun.GroupIsWorth | internal/counterworker/counterworker.go:84-101 | What a group has applied lies between the sums of the least and of the largest answers to the answered challenges when each of them has won and no win was dropped or is under way; else it is less than the latter. |
| EveryRun.CountedIsWorth | internal/counterworker/counterworker.go:53-101 | For any log and any number of consumers, with rebalances and with processes that run on after an error and skip the rest of their batch: when each answered challenge was reached by a SETNX, none was dropped between SETNX and effect, and none is under way, counter:total lies between the sums of the least and of the largest answers, else it is less than the latter; the same for the sum of lb:alltime, and in the first case for each user's score. |
| EveryRun.ExactIffAllCounted | internal/counterworker/counterworker.go:53-101 | So when the answers to each challenge have one count, counter:total is the worth of all answered challenges if and only if all are counted in this sense; the same for the sum of lb:alltime, and then for each user's score. |
| CounterWorker.Worker.Apply | internal/counterworker/counterworker.go:84-101 | One record, with a Redis error at any of its commands: keys and result are those of the specification; FailsIffCommandFails, CleanBatchCommits and PoisonIsSkipped say what can stop it. |
| CounterWorker.Worker.Consume | internal/counterworker/counterworker.go:53-82 | One round of the loop: the batch stops at the first error, and only a batch without errors is committed. |
| CounterWorker.Worker.Restart | internal/kafka/kafka.go:29-38 | A new client resumes from the committed offset. |
| CounterWorker.FailsIffCommandFails | internal/counterworker/counterworker.go:84-101 | Applying a record fails if and only if a command that was made for it failed; a record that does not decode, or was delivered before, is skipped without a trace. |
| CounterWorker.CleanBatchCommits | internal/counterworker/counterworker.go:67-80 | A batch without faults at its well-formed records is applied to the end and committed. |
| CounterWorker.PoisonIsSkipped | internal/counterworker/counterworker.go:85-89 | A batch with records that do not decode has the keys and the result of the batch without them. |
| CounterWorker.RecordIsSteps | internal/counterworker/counterworker.go:84-101 | Applying one record, whatever fails, is a sequence of protocol steps of one consumer with the same keys. |
| CounterWorker.BatchIsSteps | internal/counterworker/counterworker.go:67-75 | So is a batch, whichever command of whichever record fails. |
| CounterWorker.ConsumeIsSteps | internal/counterworker/counterworker.go:53-82 | So is a round of the loop, poll and commit included: keys, position and committed offset agree. |
| CounterWorker.RestartIsStep | internal/kafka/kafka.go:29-38 | A restart of the worker is the restart of the protocol: it stands at its committed offset, and the keys are as they were. |
| CounterWorker.CrashDropsClick | internal/counterworker/counterworker.go:4-6 | For every click: crash after the SETNX, restart, re-delivery and commit leave the counter without the click. |
| CounterWorker.RedeliveredIffRestart | internal/counterworker/counterworker.go:50-82 | Over any later rounds of the loop and restarts, a record the loop has moved past without committing is polled again if and only if the process restarts before the next successful batch. |
| CounterWorker.BrokenBatchRedelivered | internal/counterworker/counterworker.go:50-52 | In particular every record of a batch that an error broke off. |
| ProgressWorker.Worker.Pipe | internal/progressworker/progressworker.go:127-147 | The pipeline, command by command, changes the five kinds of keys as specified, at one instant. |
| ProgressWorker.Worker.ClaimUnlocks | internal/progressworker/progressworker.go:166-179 | The two claim loops leave the unlocks hash with exactly the ids proposed and not missed, the old times kept. |
| ProgressWorker.Worker.AdvanceStreak | internal/progressworker/progressworker.go:181-185 | Load, advance, save, with failures of either command. |
| ProgressWorker.Worker.ApplyEvent | internal/progressworker/progressworker.go:115-223 | Read of maxbatch, pipeline and engine layer: an error before or in the pipeline is returned, later ones are not. |
| ProgressWorker.Worker.Apply | internal/progressworker/progressworker.go:97-111 | One record: malformed skipped, SETNX first, effect only for its winner; FailsIffCommandFails, CleanBatchCommits and PoisonIsSkipped say what can stop it. |
| ProgressWorker.Worker.Consume | internal/progressworker/progressworker.go:66-95 | One round of the loop, as for the counter group. |
| ProgressWorker.FailsIffCommandFails | internal/progressworker/progressworker.go:97-151 | Applying a record fails if and only if its SETNX, or for its winner the read of maxbatch or the pipeline, failed: no claim and no streak command can; a record that does not decode, or was delivered before, is skipped without a trace. |
| ProgressWorker.CleanBatchCommits | internal/progressworker/progressworker.go:80-93 | A batch without such faults at its well-formed records is applied to the end and committed. |
| ProgressWorker.PoisonIsSkipped | internal/progressworker/progressworker.go:97-102 | A batch with records that do not decode has the keys and the result of the batch without them. |
| ProgressWorker.RecordIsSteps | internal/progressworker/progressworker.go:97-147 | Applying one record is a sequence of protocol steps, with lb:alltime for the board. |
| ProgressWorker.BatchIsSteps | internal/progressworker/progressworker.go:80-88 | So is a batch. |
| ProgressWorker.ConsumeIsSteps | internal/progressworker/progressworker.go:66-95 | So is a round of the loop: seen keys, board, positions and committed offsets agree. |
| ProgressRuns.RecordIsEvents | internal/progressworker/progressworker.go:97-147 | One record, whatever fails, leaves Redis as the events so far and at most one more say; a pipeline whose reply was lost is an event that missed its claims and its streak. |
| ProgressRuns.RoundsAreEvents | internal/progressworker/progressworker.go:66-95 | Any rounds of the loop, with batches broken off and records delivered again, leave Redis as the events that took effect say. |
| ProgressRuns.RoundsEventsAreFrom | internal/progressworker/progressworker.go:78-111 | Each of these events is the click of a record that was polled, at the times at which it was processed. |
| ProgressRuns.RoundsMatch | internal/progressworker/progressworker.go:66-185 | After any rounds from an empty Redis, scores, names, unlocks and streaks equal the recomputation from these events; so do all other keys if no pipeline ran 86,401 s or more after its event's second. |
| Interleaved.NextKeepsInv | internal/progressworker/progressworker.go:115-185 | With any number of consumers at work for different users, every single command of one of them, and a stop at any command, keeps: boards, names, days and weekday sets are those of the events in the order of their pipelines, and each unlocks hash and streak will be once the commands still to come are done. |
| Interleaved.InterleavedMatch | internal/progressworker/progressworker.go:115-185 | In every interleaving: scores and names equal the recomputation from the events in the order of their pipelines at any moment; weekly boards and weekday sets, if no event was 604,801 s late, and daily hashes, if none was 86,401 s late, too; unlocks and streak of every user for whom nothing is left to do; and all of Redis when the consumers are idle and events were in time. |
| Interleaved.EventIsRun | internal/progressworker/progressworker.go:115-185 | applyEvent that nothing disturbs, whatever fails in it, is a run of these commands with the same result. |
| Interleaved.CrossedLosesMax | internal/progressworker/progressworker.go:123-141 | Two consumers at work for one user read the maximum before either pipeline: the second one lowers it from 5 to 3. |
| Interleaved.MaxIffAlone | internal/progressworker/progressworker.go:123-142 | The daily hashes are exact in every interleaving of timely events if and only if no two consumers work for one user at a time. |
| Views.TotalsStep | internal/progressworker/progressworker.go:133-136 | One event keeps the all-time board and the names equal to the recomputation from the log. |
| Views.WeeksStep | internal/progressworker/progressworker.go:134-135 | One event less than 604,801 s late keeps every weekly board equal to the clicks of its Monday to Sunday. |
| Views.DaysStep | internal/progressworker/progressworker.go:122-142 | One event less than 86,401 s late keeps clicks, batches and the raise-only maximum of every user's day. |
| Views.WeekdaysStep | internal/progressworker/progressworker.go:143-144 | One event less than 604,801 s late keeps the weekday sets equal to the days with clicks. |
| Views.UnlocksStep | internal/progressworker/progressworker.go:166-176 | One event keeps every unlocks hash equal to the claims of the user's own batches, in order. |
| Views.StreaksStep | internal/progressworker/progressworker.go:181-185 | One event keeps the stored streak equal to the fold over the user's days, for users without streak errors. |
| Views.LastingMatch | internal/progressworker/progressworker.go:133-185 | After any events, however late: the all-time board, names, unlocks and streaks, which never expire, equal the recomputation from the log. |
| Views.PromptRunMatches | internal/progressworker/progressworker.go:115-185 | After any events, each applied less than 86,401 s after its second, all seven kinds of keys equal the recomputation from the log. |
| Views.ExpiryLosesDay | internal/progressworker/progressworker.go:34 | A second batch of a day applied 48 h or more after the first finds the hash expired, and the day loses the first. |
| Views.ExpiryLosesWeek | internal/leaderboard/keys.go:12 | A second batch of a week applied 14 d or more after the first finds the board expired, and the week loses the first. |
| Views.ExpiryLosesWeekday | internal/progressworker/progressworker.go:143-144 | The user's weekday set then forgets the day of the first. |
| Views.DaysIffInTime | internal/progressworker/progressworker.go:137-142 | The daily hashes are exact in every run with a given lateness if and only if it is below 86,401 s. |
| Views.WeeksIffInTime | internal/progressworker/progressworker.go:134-135 | The weekly boards if and only if it is below 604,801 s. |
| Views.WeekdaysIffInTime | internal/progressworker/progressworker.go:143-144 | The weekday sets if and only if it is below 604,801 s. |
| Views.ExactIffInTime | internal/progressworker/progressworker.go:115-147 | All seven kinds of keys together are exact in every run with a given lateness if and only if it is below 86,401 s. |
| Views.WeekIsItsDays | internal/progressworker/progressworker.go:134-138 | A weekly score is the sum of the seven daily click counts. |
| Views.AllTimeIsItsWeeks | internal/progressworker/progressworker.go:133-134 | The all-time score is the sum of the weekly ones. |
| Views.WeekdaysAreClickedDays | internal/progressworker/progressworker.go:143-155 | The weekday set has at most seven members, exactly the days of that week that have a daily hash. |
| Views.MaxBatchIsLargest | internal/progressworker/progressworker.go:122-141 | The raise-only maximum is one of the day's batches and none is larger. |
| Views.UnlockedIffScored | internal/progressworker/progressworker.go:149-176 | After any events, however late, a user holds no threshold above the all-time score, and all up to it if none of the user's claims was missed. |
| Views.UnlockTime | internal/progressworker/progressworker.go:166-176 | The time of an unlock is the second of the click that brought the user's score to its threshold. |
| Views.StreakOfUser | internal/progressworker/progressworker.go:181-185 | After any events, however late: when a user's days came in order and no streak command failed, the stored count is the run of consecutive days that ends with the last one, best the longest run. |
| Views.StreaksFit | internal/streak/streak.go:15-27 | In whatever order a user's days come and whatever fails, count and best stay within the days since the epoch: the uint32 never wraps around, and the int32 column of the copy never clamps. |
| Views.EngineOnBoard | internal/progressworker/progressworker.go:131-185 | In every run, users with an unlock or a streak are on the all-time board, on which the snapshot relies. |
| Views.CrashIsMissed | internal/progressworker/progressworker.go:149-151 | A crash right after the pipeline is an event that missed all its claims and its streak. |
| Views.BestFallsIff | internal/progressworker/progressworker.go:295-303 | An event lowers a user's best streak if and only if the read fails, the save does not, and best was above 1. |
| Calendar.TomorrowIsNext | internal/leaderboard/keys.go:29-31 | The closed formula for day numbers agrees with the calendar on what the next day is. |
| Calendar.NumberOfDate | internal/leaderboard/keys.go:29-31 | From day numbers to dates and back. |
| Calendar.NumberIsInjective | internal/leaderboard/keys.go:29-31 | Different dates have different numbers. |
| Calendar.DateOfNumber | internal/leaderboard/keys.go:29-31 | From dates to day numbers and back. |
| Calendar.FourDigitYears | internal/server/server.go:42-43 | Four-digit years are exactly the days up to 9999-12-31. |
| Calendar.ParsePrinted | internal/streak/streak.go:40-42 | Parsing a printed date (full-date, section 5.6 of RFC 3339) gives it back. |
| Calendar.PrintParsed | internal/streak/streak.go:40-42 | What parses is what would be printed. |
| Calendar.IsoIsInjective | internal/progressworker/progressworker.go:45-46 | Printed dates are equal exactly for equal days. |
| Calendar.WeekStartDayIs | internal/leaderboard/keys.go:26-32 | The date arithmetic with a day of the month below one lands on the Monday. |
| Calendar.WeekStartIsMonday | internal/leaderboard/keys.go:22-33 | WeekStart(t) is the Monday midnight with WeekStart(t) <= t < WeekStart(t) + 7 d. |
| Calendar.SameWeek | internal/leaderboard/keys.go:22-33 | Two instants have the same WeekStart exactly when they share that span. |
| Calendar.SameWeekKey | internal/leaderboard/keys.go:35-43 | And exactly then the same key. |
| Calendar.UserKeyIsInjective | internal/progressworker/progressworker.go:119-120 | No two users or dates share a daily or a weekday key, whatever characters a sub is made of. |
| Calendar.NextMidnightIsNext | internal/server/server.go:370-375 | Strictly after t, at most a day later, with no midnight in between. |
| Streak.IsNextDayOnDays | internal/streak/streak.go:38-46 | On printed dates, isNextDay holds exactly for day numbers that differ by one. |
| Streak.StreakMeaning | internal/streak/streak.go:13-36 | Over any nondecreasing days, Count is the length of the run of consecutive days that ends with LastDay, and Best the longest run in the whole set. |
| Streak.LateEventResets | internal/streak/streak.go:25-36 | An event of an earlier day restarts the count and moves LastDay back; the count is then right if and only if the day before it had no contribution. |
| Achievements.Evaluate | internal/achievements/achievements.go:99-134 | The loop over thresholds and the batch and hour rules, in order. |
| Achievements.ThresholdsAreCatalog | internal/achievements/achievements.go:79-87 | The thresholds are positive; their ids differ from each other and from every other id claimed. |
| Achievements.ProposedHas | internal/achievements/achievements.go:89-113 | A batch proposes a threshold's id if and only if it crosses the threshold. |
| Achievements.ExactlyOnce | internal/achievements/achievements.go:89-113 | Over any batches, each threshold is proposed by exactly one if the total reaches it and by none otherwise. |
| Achievements.OthersEarned | internal/achievements/achievements.go:107-135 | When the ids of size and hour are given, next to any catalog: from 500 and 2,000 clicks on and at 10,000; in the hours from 0, 3, 5 and 12 o'clock, counted from local midnight. |
| Achievements.HiddenEarned | internal/troll/troll.go:30-53 | When the hidden ids are given, by the value of the total and the seconds since local midnight. |
| Achievements.ClaimLoop | internal/progressworker/progressworker.go:166-179 | The claims of the ids in order, and a frame that names exactly the new unlocks, each once. |
| Achievements.ClaimAllHas | internal/progressworker/progressworker.go:170-173 | HSETNX keeps old times and adds what was proposed and not missed. |
| Achievements.ClaimAllAppend | internal/progressworker/progressworker.go:174-179 | Two claim loops are one over both lists. |
| Achievements.UnlockedIffReached | internal/progressworker/progressworker.go:149-176 | In every run, a threshold is in the hash if and only if the total has reached it and the claim of the one event that reached it was not missed; with the time of that event. |
| Troll.NumberOfDecimal | internal/troll/troll.go:56 | The printed digits stand for the number. |
| Troll.MirroredIffFlip | internal/troll/troll.go:55-63 | The printed form reads the same both ways exactly when the number equals its digit reversal by arithmetic. |
| Troll.IsPalindrome | internal/troll/troll.go:55-63 | The loop decides that. |
| Troll.SameCharsIffRepeats | internal/troll/troll.go:67-75 | All characters are equal exactly for d times 1...1. |
| Troll.IsRepdigit | internal/troll/troll.go:67-75 | The loop decides that. |
| Troll.RepdigitIsPalindrome | internal/troll/troll.go:55-75 | A repdigit is a palindrome. |
| Troll.PowersOfTwo | internal/troll/troll.go:65 | n > 0 and n & (n - 1) == 0 exactly for the powers of two. |
| Troll.EvaluateTotal | internal/troll/troll.go:35-43 | The unlocks of a total, by what they mean. |
| Troll.Evaluate | internal/troll/troll.go:30-53 | And of a batch. |
| Leaderboard.OrderRanks | internal/progressworker/progressworker.go:280-286 | The order of a sorted set lists each member once, higher scores first, equal scores by member. |
| Leaderboard.OnlyOneOrder | internal/leaderboard/board.go:36-38 | No other list does. |
| Leaderboard.PositionCounts | internal/leaderboard/ranks.go:15-21 | A position in it is the number of better members. |
| Leaderboard.TopN | internal/leaderboard/board.go:36-47 | Fills an array whose i-th row has i better members, with that member's score. |
| Leaderboard.RankCounts | internal/leaderboard/ranks.go:9-21 | Rank is one plus the number of better members, and 0 exactly for absent ones. |
| Leaderboard.TopNHasRank | internal/leaderboard/ranks.go:9-21 | The i-th entry of TopN, from 0, has rank i + 1. |
| Leaderboard.RankedIsInTopN | internal/leaderboard/board.go:36-47 | Whoever has rank at most n is in the top n, at that place. |
| Leaderboard.LessMeans | internal/leaderboard/board.go:36-38 | The order of members of one score is byte by byte: a proper beginning, or the smaller byte where they first differ, is less. |
| Leaderboard.RankOrders | internal/leaderboard/ranks.go:9-21 | Of two members the one with the higher score has the smaller rank, and of two with one score the one that is greater byte by byte. |
| Leaderboard.IncrementMovesRanks | internal/progressworker/progressworker.go:133-134 | A positive increment never worsens the user's rank and worsens another's by exactly one if overtaken, else not at all. |
| Leaderboard.SyncSet | internal/leaderboard/board.go:18-34 | Rows through an array into one ZADD, which may be lost; no rows, no change. |
| Leaderboard.Sync | internal/leaderboard/board.go:18-34 | Both sets and the expiry of the week's, with errors that are not reported. |
| Leaderboard.RefreshIffCovered | internal/leaderboard/board.go:15-17 | Refreshing twice is refreshing once; the board becomes the table's if and only if every member has a row. |
| Controller.LadderClimbs | internal/pow/controller.go:41-51 | The interval never falls as L rises, and a step of L moves it by at most one rung of 2, 5, 10: from 5 to 6 and from 11 to 12. |
| Controller.EWMABetween | internal/pow/controller.go:53-61 | The estimate moves toward the sample and stays between the two. |
| Controller.EWMAFallsByDecay | internal/pow/controller.go:53-61 | With a nonnegative sample it keeps at least the decayed part. |
| Controller.FortyNineSeconds | internal/pow/controller.go:16-23 | Decaying from 440 to below 140 takes more than 49 s. |
| TickLoop.Worker.Publish | internal/counterworker/counterworker.go:138-146 | Milestones are claimed only when the total has moved: all reached ones without an error, else those before the SETNX that fails and, if it was stored, its own; announced are those of them that were new, in order. |
| TickLoop.Worker.Adjust | internal/counterworker/counterworker.go:148-161 | Rate sample, estimate, and the two keys written when L changes. |
| TickLoop.Worker.Pass | internal/counterworker/counterworker.go:120-163 | One pass of the loop, with failed reads and SETs, and what it claims and announces, with or without a SETNX that fails. |
| TickLoop.Worker.WriteDifficulty | internal/counterworker/counterworker.go:183-190 | Both keys of the pair; a failed SET may or may not be stored. What the keys then hold over whole runs is in PairWrites. |
| TickLoop.Worker.constructor | internal/counterworker/counterworker.go:109-116 | A start: L from the key if it can be read and is in range, else 1; the estimate from nothing; the pair written. |
| TickLoop.AfterIsSound | internal/counterworker/counterworker.go:148-197 | A pass keeps L or moves it by one, 30 s or more after the last change; a restart takes L from the key if it can read it; the key is off by at most the number of SETs lost in a row. |
| TickLoop.StartsAt | internal/counterworker/counterworker.go:109-116 | A start has the L of the key if it can be read and is in 1..16, else 1; the estimate is 0, and the next change is a slew interval away. |
| TickLoop.MovesIff | internal/pow/controller.go:26-39 | A pass moves L exactly when it reads total and stats, comes after the last sample and 30 s or more after the last change, and arrives at an estimate above 440 below L = 16, or below 140 above L = 1. |
| TickLoop.Slew | internal/pow/controller.go:26-39 | Between any two states of a run in which restarts read pow:L and find at most one SET missing, L moves by at most floor(time / 30 s) + 1. |
| TickLoop.FailedGetDropsL | internal/counterworker/counterworker.go:192-197 | A restart whose GET fails brings L from anywhere to 1 at one instant, beyond the limit exactly from 3 up. |
| TickLoop.LostSetsDropL | internal/counterworker/counterworker.go:183-190 | A run in which two raises are lost and a restart takes both back at one instant. |
| TickLoop.SlewIff | internal/pow/controller.go:20-39 | The slew limit holds in every run of a class if and only if restarts read pow:L and find at most one SET of it missing. |
| TickLoop.Converges | internal/pow/controller.go:26-39 | Held above 440 with passes at most d apart, L is 16 within 15 (30 s + d); held below 140, it is 1. |
| TickLoop.NoFastFlipFlop | internal/counterworker/counterworker.go:148-160 | With a nondecreasing accepted count, and restarts that come more than 19 s after a raise and find L where it was (or come more than 49 s after it), nothing lowers L within 49 s of the raise. |
| TickLoop.EarlyRestartFlips | internal/counterworker/counterworker.go:109-116 | For every earlier time: a run with a restart that early in which L is lowered within 49 s. |
| TickLoop.FlipFlopIff | internal/counterworker/counterworker.go:109-160 | When all restarts come more than g after the raise, L is never lowered within 49 s of it in any run of a class if and only if g is at least 19 s and restarts find L where it was, or g is at least 49 s. |
| CalmLoad.StaysLevel | internal/counterworker/counterworker.go:109-160 | When at most 440 submissions per second are accepted over each sample of the loop, and GETs of stats do not fail when a process starts, no pass of any run, further starts included, raises L. |
| CalmLoad.SteadyLoad | internal/counterworker/counterworker.go:103-160 | For every rate: that many submissions per second, read once a second, are such a load, and after n seconds the estimate is the rate times one minus what decays in n seconds. |
| CalmLoad.HeavyLoadRaises | internal/pow/controller.go:16-39 | A steady load above 440 per second, read once a second, raises L within 270 s of a start. |
| CalmLoad.BlindStartIff | internal/counterworker/counterworker.go:109-160 | After a start below 16 that cannot read the count n, with a first sample dt later and no load: some pass raises L if and only if one that controls comes 30 s or more after the start while n / dt (1 - decay(dt)), decayed since the first sample, exceeds 440. |
| CalmLoad.BlindStartRaises | internal/counterworker/counterworker.go:114 | In particular, when the first pass comes 30 s after such a start and finds the count n, it raises L exactly when n exceeds 26,400. |
| CalmLoad.CalmIff | internal/counterworker/counterworker.go:109-160 | For every load bound and class of runs: no pass raises L in any run of the class under at most that load if and only if it is at most 440 per second and the GET of stats does not fail when a process starts. |
| Difficulty.Cache.Refresh | internal/difficulty/difficulty.go:49-69 | Both values or none. |
| Difficulty.RefreshIsSteps | internal/difficulty/difficulty.go:49-69 | A refresh that nothing disturbs is a run of the protocol: both values got, then all three stored, or nothing if a GET fails. |
| Difficulty.NextKeepsInv | internal/difficulty/difficulty.go:49-69 | Every step of writer, refresh and Get, with crashes and lost SETs, keeps: each copy of a key is one of the two values of its era, and a value the era did not end with was got a slew interval before the next. |
| Difficulty.ErasAreSlow | internal/counterworker/counterworker.go:155-157 | Decisions that are n apart are n slew intervals apart. |
| Difficulty.BoundedTearing | internal/difficulty/difficulty.go:30-33 | With restarts that read pow:L and no change of L after a lost SET, crashes anywhere: a Get that began after a refresh returns (l, MinInterval(l')) with l and l' at most one apart, if the two GETs behind the pair are less than a slew interval apart, the time of the worker's two writes included. |
| Difficulty.TearingIff | internal/counterworker/counterworker.go:183-197 | No run of a class is torn further if and only if restarts read pow:L and a process that has lost a SET restarts before it changes L again (or the writes take so long that no GETs are near). |
| Difficulty.ColdGetWithoutL | internal/difficulty/difficulty.go:30-33 | A Get under way during the first refresh may return ok with no L. |
| Difficulty.ColdGetWithoutInterval | internal/difficulty/difficulty.go:30-33 | Or ok with an L and no interval. |
| Difficulty.OkMeansLoadedIffWarm | internal/difficulty/difficulty.go:30-33 | ok means that both numbers are there, in every run and whatever fails, if and only if the Get began after a refresh had completed. |
| PairWrites.KeysHoldLastStored | internal/counterworker/counterworker.go:183-190 | In every run, whichever SETs are lost: pow:L holds the L, and pow:min_interval the interval that belongs to the L, of the last SET of that key that was stored. |
| PairWrites.PairAgrees | internal/counterworker/counterworker.go:183-190 | From a start on, while no SET is lost, the keys are the loop's L and the interval that belongs to it. |
| PairWrites.EventIsSteps | internal/counterworker/counterworker.go:120-190 | A pass, and a crash with the start after it, are the protocol's steps: Decide or Restart, then SetL, then SetInterval. |
| PairWrites.RunIsSteps | internal/counterworker/counterworker.go:109-190 | So a run of the loop is a run of the writer of that protocol, and what is proved of the pair a Get returns is about what this loop writes. |
| Milestones.FirstIsReached | internal/counterworker/counterworker.go:168-171 | A pass without errors covers exactly the milestones up to the total. |
| Milestones.Claims.ClaimMilestones | internal/counterworker/counterworker.go:165-181 | The loop claims the reached ones, or stops at an error; the frames are exactly the newly claimed ones but that of a SETNX that failed, each once, in ascending order. |
| Milestones.UnclaimedAnnounces | internal/counterworker/counterworker.go:172-178 | The frames of a pass are the members of the claimed set that were not there before, each once. |
| Milestones.PassIsSteps | internal/counterworker/counterworker.go:165-181 | The loop, undisturbed, is a pass of the protocol with the same claims and frames. |
| Milestones.NextKeepsInv | internal/counterworker/counterworker.go:138-146 | Every step of any number of workers keeps the claimed set a prefix and announcements unique. |
| Milestones.ClaimsAreSafe | internal/counterworker/counterworker.go:165-181 | In every run: the claimed set is a prefix bounded by the total, each threshold is announced at most once, and a pass without errors leaves everything it read as reached claimed. |
| Snapshot.Snapshotter.ToSlices | internal/snapshot/snapshot.go:267-279 | Two slices that list a set, hash or table, each member once. |
| Snapshot.Snapshotter.Upsert | internal/db/query.sql.go:33-47 | Row by row, the new values win. |
| Snapshot.Snapshotter.InsertNew | internal/db/query.sql.go:15-31 | Row by row, the first value wins. |
| Snapshot.Snapshotter.SnapshotUnlocks | internal/snapshot/snapshot.go:101-131 | Flattened hashes of all listed users, inserted where new. |
| Snapshot.Snapshotter.SnapshotStreaks | internal/snapshot/snapshot.go:133-163 | Streaks of the listed users that have one, numbers clamped to the int32 columns. |
| Snapshot.InColumnIsNearest | internal/snapshot/snapshot.go:152-156 | A number above 2^31 - 1 becomes 2^31 - 1, any other stays. |
| Snapshot.Snapshotter.Snapshot | internal/snapshot/snapshot.go:47-99 | The whole copy: absolute values everywhere, first unlock times, unlocks and streaks of users on the board. |
| Snapshot.Snapshotter.Restore | internal/snapshot/snapshot.go:165-265 | Only an empty Redis changes. |
| Snapshot.SnapshotIsRedis | internal/snapshot/snapshot.go:47-99 | A quiet snapshot leaves the tables equal to Redis, past weeks excepted. |
| Snapshot.RestoreIsTables | internal/snapshot/snapshot.go:165-265 | An empty Redis becomes what the tables say of all but other weeks. |
| Snapshot.RestoreMerges | internal/snapshot/snapshot.go:165-265 | A Redis with neither counter nor board, whatever else it holds: names, this week's scores and streaks become the tables', unlock times that are there stay, and nothing goes. |
| Snapshot.RoundTrip | internal/snapshot/snapshot.go:47-265 | Snapshot, loss, restore in the same week: counter, board, this week, names, first unlock times and streaks are back. |
| Snapshot.RoundTripIff | internal/snapshot/snapshot.go:47-265 | For all Redis data and tables: everything but other weeks comes back exactly when the tables hold nothing that Redis does not, unlock times agree, each unlock and streak is of a user on the board or already in the tables, and the streaks that are copied fit their columns. |
| SnapshotRuns.NextKeepsInv | internal/snapshot/snapshot.go:47-163 | Every step of workers and snapshotter, short of a loss of Redis under running workers, keeps: tables and what a snapshot has read hold values that Redis had and no more than it has, and users with unlocks or streaks are on the board. |
| SnapshotRuns.TablesOnlyGrow | internal/db/query.sql.go:27-49 | In every run without a loss of Redis under a running worker, snapshots that stop anywhere included, numbers in Postgres never fall, unlock times never change, rows never go. |
| SnapshotRuns.TablesAreReal | internal/snapshot/snapshot.go:47-99 | In every run without a loss of Redis under a running worker, every table cell holds a value its Redis cell once had, and click numbers never exceed Redis. |
| SnapshotRuns.QuietRoundTrip | internal/snapshot/snapshot.go:47-265 | After every run without a loss of Redis under a running worker, the round trip works: its conditions are invariants. |
| SnapshotRuns.QuietSnapshot | internal/snapshot/snapshot.go:47-99 | A snapshot step by step that nothing disturbs does what the method does. |
| SnapshotRuns.RunKeepsHad | internal/snapshot/snapshot.go:47-99 | Even in runs that lose Redis, every table cell holds a value its Redis cell once had. |
| SnapshotRuns.SnapshotGrowsIff | internal/db/query.sql.go:33-47 | For all Redis data and tables: a quiet snapshot lowers nothing if and only if the counter and the scores that are on both sides are not lower in Redis. |
| SnapshotRuns.RunGrowsIff | internal/snapshot/snapshot.go:53-81 | Over any run, with losses and restores: the tables never lose anything if and only if no write of a snapshot replaces a number by a lower one. |
| SnapshotRuns.LossWhileRunning | internal/snapshot/snapshot.go:47-69 | A run for every user and saved score: saved, Redis lost, one click, next snapshot, and the saved score is 1. |
| SnapshotRuns.GrowIffNoLoss | cmd/the-button-worker/main.go:59-65 | The tables only grow in every run of a class if and only if Redis is never lost while the worker runs on. |
| Migrate.Database.GetDBVersion | internal/migrate/migrate.go:105-106 | The highest applied version. |
| Migrate.Database.ApplyDown | internal/migrate/migrate.go:121 | Reverses this version if it is applied. |
| Migrate.Database.Down | internal/migrate/migrate.go:80-127 | Undisturbed: refuses at 1 or below, else reverses exactly the latest; unforced, 001 stays. |
| Migrate.Database.Up | internal/migrate/migrate.go:59-78 | Applies what is pending in order and lists it; a gap is an error before anything, a failing migration ends it. |
| Migrate.CommandsAreSteps | internal/migrate/migrate.go:59-127 | Down and Up that nothing disturbs are steps of the protocol below and leave applied what the methods promise. |
| Migrate.FirstStays | internal/migrate/migrate.go:26-31 | In every interleaving of any number of unforced Downs and Ups, 001 is never reversed. |
| Migrate.OrderlyRun | internal/migrate/migrate.go:80-127 | While Ups keep out of the way, in particular with only Downs, the applied versions stay a prefix and each success removes exactly the top. |
| Migrate.TopsIffUpsWait | internal/migrate/migrate.go:80-127 | Over all runs of Downs and Ups from a state without a gap: every Down that succeeds removes exactly the latest version in every run of a class if and only if Ups apply nothing while a Down is between check and reversal, or there are at most two versions. |
| Migrate.UpMayRestore | internal/migrate/migrate.go:111-121 | A run in which an Up does apply something then, yet the Down removes the latest one: another Down reversed it and the Up applied it again. |
| Migrate.LatestIffNoUpBetween | internal/migrate/migrate.go:80-85 | When only Ups, complete or not, come between the check and the reversal of a Down: it reverses the latest migration, and leaves no gap, if and only if none of them applied anything. |
| Migrate.GapBlocksUps | internal/migrate/migrate.go:59-71 | After a gap, no sequence of Ups changes anything. |
| Migrate.GapStaysWhileCovered | internal/migrate/migrate.go:59-127 | Whatever Downs and Ups do, a missing version stays missing until every version above it is reversed. |
| Migrate.PinMatters | internal/migrate/migrate.go:111-121 | Two Downs past the check at version 2: pinned, one fails; unpinned, 001 would go. |
| Work.TargetOf | internal/pow/work.go:12-21 | t with t d <= 2^256 < (t + 1) d and t >= 2^128; nothing exactly when a factor is zero. |
| Work.BatchTarget | internal/pow/work.go:12-21 | The target of a batch is the single-click target floor-divided by the count. |
| Work.HashedIsInjective | internal/pow/work.go:31-36 | The hashed bytes determine token, count and nonce. |
| Work.HashedLayout | internal/pow/work.go:31-36 | The token comes first, then four bytes that read back as the count, then eight that read back as the nonce. |
| Work.NumberWeighs | internal/pow/work.go:33-38 | Bytes are read most significant first. |
| Work.Put | internal/pow/work.go:33-35 | Big-endian bytes in place. |
| Work.RationalBound | internal/pow/work.go:23-26 | Compared with the exact quotient, the integer target rejects one hash value more, unless the division is exact. |
| Work.CheckWork | internal/pow/work.go:23-39 | Accepts if and only if no factor is zero and the hash value is below the floor of 2^256 / (w0 count l). |
| Work.WorksIffMeets | internal/pow/work.go:27-39 | That is (hash + 1) w0 count l <= 2^256 with no factor zero. |
| Work.LevelsThatWork | internal/pow/work.go:12-39 | What was hashed works at exactly the levels from 1 to 2^256 / ((hash + 1) w0 count), rounded down. |
| Work.LowerIsEasier | internal/pow/work.go:23-39 | What works at one L works at every lower one. |
| Work.Solve | internal/pow/work.go:41-49 | Ends with the least nonce that works if one is among those tried so far, and else goes on. |

## Left out

- Work.Solve: is cut off after any given number of rounds; where no nonce works, the loop of the source runs for ever.
- Agreement.TwoGroupsAgree: is about one consumer per partition without rebalances, whose process restarts after a Redis error; EveryRun.ExactIffAllCounted is without these restrictions.
- Agreement.ExactIffNoneDropped: the same restriction.
- EveryRun.ExactIffAllCounted: is about logs in which the answers to one challenge have one count; with different counts, which of them counts depends on what was skipped, and EveryRun.CountedIsWorth gives the bounds.
- ProgressRuns.RoundsMatch: takes the rounds of the group one after the other; Interleaved.InterleavedMatch lets consumers interleave.
- Interleaved.InterleavedMatch: starts each record after its SETNX, which Pipeline models, and is about consumers that work for different users, as partitions keep them; MaxIffAlone says what happens otherwise.
- Views.PromptRunMatches: is about events applied one after the other; Interleaved.InterleavedMatch is about commands that interleave.
- ProgressWorker.Worker.ApplyEvent: the quest sets and the frame that is sent to the user are left out.
- Clicks.Api.SubmitClicks: parsing and the hash are parameters.
- Views.UnlockedIffScored: a failed read of the new total proposes fewer ids, which is covered as missing their claims.
- Streak.StreakMeaning: is about nondecreasing days; LateEventResets says what other orders do.
- Snapshot.Snapshotter.Restore: is one step; a restore that fails midway and is retried finds Redis not empty and is not modelled.
- SnapshotRuns.NextKeepsInv: the progress worker stores streaks that fit the int32 columns, which Views.StreaksFit proves of it.
- SnapshotRuns.QuietRoundTrip: seen keys, throttles, daily hashes and weekday sets are not in the snapshot, so the results about deduplication are for runs in which Redis survives.
- SnapshotRuns.TablesOnlyGrow: the expiry of a weekly board is a step that does not hit the week being copied, which is at most a few days old then.
- Migrate.Database.Up: the runner's own session handling and the SQL of the migrations are left out; with a gap it is taken to apply nothing, as its default is.
- Quests: capped comparisons and a small cyclic window, easy members only.
- SHA-256, HMAC, base64url, JSON, the Parse loop over keys: library code; abstract functions and assumptions stand for them.
- gRPC plumbing, display names, SSE frame bodies, metrics, logging, configuration and wiring: input, output and formatting.
- Clients of Redis, Kafka and Postgres: only the meaning of the commands used is modelled.
- Rounding of scores and of the EWMA: naturals and reals instead.
