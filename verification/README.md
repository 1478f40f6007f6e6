# Verified model of the paper-trading engine's state machines

This project models ten parts of a paper-trading engine in Dafny and proves what their
documentation, comments and tests promise: the job queue and its rolling pool, the sequential
evaluation looks and their two-store ledger, split restatement, split withdrawal, the bitemporal
fact store, the whole-share planner, issuer grouping by aliases, order intake, the headline
tailer, and OCC symbols. `dafny verify dfyconfig.toml` checks the whole of it.

Each module models one component:

| module | component |
|---|---|
| `QueueTypes`, `QueueProtocol` | the `jobs` table under enqueues, supersedes, the drain lock, orphan reclaim and crashes, as one step relation |
| `DrainTrace`, `Drain` | one drain: an event trace with its rules, the theorems about every legal trace, and the imperative pool and drain loops proved to produce legal traces only |
| `DrainMoves` | the link between the two: what a drain does to the table is a run of the protocol, whatever others do in between |
| `Looks` | the 60/90/120 sequential looks as a prefix evaluator |
| `LookLedger` | looks persisted in the database, anchored by hash chain there and in a JSONL file |
| `LongRunVariance`, `RealSums`, `Ranks`, `Moments` | the variance kernels, finite-sample correction, ranks, rank correlation and sample moments behind the looks |
| `SplitRestate` | finding a split's scale break, exempting islands, rewriting history |
| `SplitWithdrawal` | the active / pending / withdrawn life of a reported split |
| `BitemporalFacts` | revision chains and the batched quote writer |
| `Planner` | whole-share funding, reinvestment and repair |
| `AliasGroups` | the union-find that groups tickers into issuers |
| `OrderIntake` | idempotent admission of trade intents |
| `RssTailer` | bounded reads of an append-only file |
| `OccSymbols` | option symbols |
| `Options`, `Arithmetic` | optional values, sums and ranges shared by the others |

Conventions. Floats are `real`. Digests are symbolic: the digest of a body is that body, which is
what an injective hash gives. Clocks, child exits, load probes, disk state, JSON readers, the
exchange calendar and other processes' writes are parameters or oracle functions about which
nothing is assumed beyond their types (a calendar's next session is later; a mark is positive).
Tables are sequences or maps, transactions are atomic steps. A log-space tolerance of 8% is the
multiplicative band from 1/1.08 to 1.08, and standard errors stay squared.

Where code and promise differ, the model follows the code, and the exact condition is proved:

- The queue does not always keep live rows of one kind and equal parameters unique. A drain starts
  the rows of its snapshot without reading their state again, so a row superseded while the writer
  was released is started beside its newer equal (`StaleSnapshotBreaksUnique`). Uniqueness holds
  over a run exactly when no drain starts a superseded row beside a clashing live or starting one
  (`RunUniqueIff`); a drain that checked its rows were still pending would always keep it
  (`PendingStartsKeepUnique`).
- The pool's memory bound fails for exactly the negative declarations (`UnsafeIffNegative`).
- Only the first oversized row of a run is refused. Any other can never start
  (`OversizedNeverStarts`), so it holds its pool until the deadline: `RunPool` then ends as `budget`
  whenever the rows read and the guard never trips. Memory holds up an idle pool for no other reason
  (`IdlePoolWaits`).
- A planned change below 1e-12 shares is not ordered. The holdings every plan reaches exactly are
  those that are whole or at least 1e-12 from the whole numbers beside them (`ReachedIffOrderly`);
  any other has an account, with a plan within the planner's limits, whose every plan misses it
  (`StrandedIsMissed`, `StrandedHasPlan`). A stock that does not
  buy is reached exactly if and only if its excess over the rounded target is nothing or at least
  1e-12 (`SoldIsReachedIff`).
- The `updated` figure of a split page is exact only when no eligible key repeats on the page
  (`UpdatedExactIff`, `RepeatOverstates`).
- `normalise` is idempotent except on blank text (`NormaliseIdempotentIff`), and an expiry survives
  formatting and parsing exactly when its year lies in 1969-2068 (`FormatThenParse`).

## Model

| member | source | states |
|---|---|---|
| `QueueProtocol.SameParamsIsKeyEquality` | engine/queue_runner.py:457-462 | comparing parameters canonically, with text as fallback, is equality of one key, hence an equivalence |
| `QueueProtocol.JobTable.Add` | engine/queue_runner.py:465-554 | the scan, the supersede passes and the insert compute the enqueue function; a dry run changes nothing |
| `QueueProtocol.EnqueueKeepsUnique` | engine/queue_runner.py:465-554 | no enqueue creates two live rows of one kind with canonically equal parameters |
| `QueueProtocol.EnqueueServes` | engine/queue_runner.py:465-554 | an accepted enqueue leaves a matching live row, unless `once` finds the work done, and then no matching row waits; otherwise it only retires waiting rows of its kind |
| `QueueProtocol.EnqueueIs` | engine/queue_runner.py:465-554 | row by row, exactly which rows an enqueue retires and when it adds one |
| `QueueProtocol.SupersedeLeavesOnePending` | engine/queue_runner.py:465-554 | an enqueue that adds a row of a superseding kind leaves it the only pending row of its kind |
| `QueueProtocol.StepKeepsOwned` | engine/queue_runner.py:1013-1035 | every step of enqueues, launches, opens, starts, releases, settles, exits and crashes keeps: only the lock holder lives, and once open it owns exactly the running rows |
| `QueueProtocol.RunKeepsOwned` | engine/queue_runner.py:1053-1083 | that ownership invariant over every interleaving |
| `QueueProtocol.ReclaimIsSafe` | engine/queue_runner.py:1107-1115 | in every reachable world no row has two owners, and a drain about to reclaim takes no row of a live drain |
| `QueueProtocol.StartKeepsUniqueIff` | engine/queue_runner.py:831-833 | marking rows running keeps uniqueness exactly when none of them is retired and clashes with a live or starting row |
| `QueueProtocol.StepKeepsWaiting` | engine/queue_runner.py:1117-1148 | a row a drain selected and has not handled is always pending or superseded |
| `QueueProtocol.StepKeepsUniqueIff` | engine/queue_runner.py:1107-1125 | each step keeps uniqueness exactly when it does not start a superseded row beside a clashing live or starting one |
| `QueueProtocol.RunUniqueIff` | engine/queue_runner.py:445-554 | over every run, uniqueness always holds if and only if no drain starts a superseded row beside a clashing live or starting one |
| `QueueProtocol.PendingNeverRevives` | engine/queue_runner.py:831-833 | starts that find their rows pending never do that, over every run |
| `QueueProtocol.PendingStartsKeepUnique` | engine/queue_runner.py:831-833 | from the empty table, uniqueness holds in every run whose starts find their rows pending |
| `QueueProtocol.StaleSnapshotBreaksUnique` | engine/queue_runner.py:1185-1349 | an eleven-step run, with each pool row settled before the next start, in which uniqueness fails |
| `DrainTrace.AlwaysDisciplined` | engine/queue_runner.py:873-874 | at every moment of a drain at most `width` jobs run, a store-writing job runs alone, and no child runs while the parent holds the writer |
| `DrainTrace.AlwaysFits` | engine/queue_runner.py:898-902 | at every moment the declared memory of the running jobs is within the budget, for non-negative declarations |
| `DrainTrace.OversizedNeverStarts` | engine/queue_runner.py:898-902 | with non-negative declarations no row that declares more than the budget ever starts, even alone |
| `DrainTrace.OutcomesFit` | engine/queue_runner.py:898-902 | so no row above the budget ever has an outcome |
| `DrainTrace.UnsafeIffNegative` | engine/queue_runner.py:851-902 | a declared value lets some legal trace pass the budget, alone among non-negative ones, if and only if it is negative |
| `DrainTrace.NegativeDeclarationOverruns` | engine/queue_runner.py:851-856 | the overrunning trace, for every negative declaration |
| `DrainTrace.InQueueOrder` | engine/queue_runner.py:1207-1284 | jobs start in strictly increasing queue order and no row is started, refused or skipped twice |
| `DrainTrace.NoOvertaking` | engine/queue_runner.py:1237-1260 | whatever lies ahead of a started row was started, refused or skipped before it |
| `DrainTrace.Staggered` | engine/queue_runner.py:875-905 | two launches of one pool are at least four seconds apart, and before the drain deadline |
| `DrainTrace.StartsInTime` | engine/queue_runner.py:875-878 | every start lies within the drain's window, a pool's strictly before its deadline |
| `DrainTrace.StartsUnderClearGuard` | engine/queue_runner.py:879-893 | every start follows a guard reading of its own that was not tripped |
| `DrainTrace.ExactlyOneOutcome` | engine/queue_runner.py:848-870 | when nothing runs any more, every started job has exactly one outcome, the recorded one |
| `DrainTrace.KilledAtCeiling` | engine/queue_runner.py:857-868 | a job is killed only as a child and only once its own ceiling has passed since its start |
| `DrainTrace.SettledAreHandled` | engine/queue_runner.py:956-970 | outcomes and refusals belong to handled rows |
| `DrainTrace.RefusedHasNoOutcome` | engine/queue_runner.py:1248-1256 | a refused row never runs, so it has no outcome |
| `Drain.ReapOne` | engine/queue_runner.py:848-870 | collecting a child keeps the pool's variables equal to what the trace says: active list, memory sum, results, launched prefix |
| `Drain.LaunchOne` | engine/queue_runner.py:898-919 | launching the next row does the same and is a legal start |
| `Drain.Runner.constructor` | engine/queue_runner.py:1192-1202 | the width is clamped to 1..8, the deadline is start plus budget, all rows are pending |
| `Drain.Runner.Reap` | engine/queue_runner.py:846-870 | one pass asks each active child once, in order: it ends with its own exit code, or timed out at its ceiling, or stays; nobody else gains a result; past the horizon none is left; the tie to the trace stays |
| `Drain.Runner.Poll` | engine/queue_runner.py:850 | the answer is the child's exit code, asked once |
| `Drain.Runner.Fill` | engine/queue_runner.py:872-921 | the launch loop with its deadline, guard, memory and stagger checks keeps the tie to the trace; past the deadline it stops the pool, it stops for resources only on a guard reading that has just tripped, and it pauses only for a full pool, a tripped guard, a row that does not fit beside the running ones, or the stagger |
| `Drain.Runner.TryLaunch` | engine/queue_runner.py:875-919 | one look at the next row either launches it, before the deadline, or leaves the pool as it was and says why |
| `Drain.IdlePoolWaits` | engine/queue_runner.py:898-905 | with nothing running, a next row within the budget is never held by memory: the pool waits only for a tripped guard or the stagger |
| `Drain.Runner.Supervise` | engine/queue_runner.py:845-935 | the pool loop terminates under every clock; it ends with nothing active and has no stop reason exactly when every row launched; `budget` only past the deadline; `resources` only idle, 900 s after the last launch or the start of the pool, and only when the last guard reading on the trace tripped |
| `Drain.Runner.RecordResults` | engine/queue_runner.py:956-970 | a launched row is done when its child exited with 0 and failed otherwise, an unlaunched row is pending, other rows stay |
| `Drain.Runner.RunPool` | engine/queue_runner.py:802-976 | the launched rows are a prefix of the pool, each with one outcome, and with non-negative declarations each within the budget; a row is done exactly when its child exited with 0, failed exactly when refused or ended otherwise, and the rest of the pool is pending; the stop reason is absent exactly when all launched; a pool holding a row above the budget ends as `budget` when its rows read and the guard never trips |
| `Drain.Runner.RunLeased` | engine/queue_runner.py:979-1004 | the child runs alone with the writer released; its outcome is its exit code or a timeout at the last poll, and its row is done when that code is 0 and failed otherwise |
| `Drain.Runner.RunInProcess` | engine/queue_runner.py:1336-1347 | the call runs alone on the writer; its row is done when it returned and failed when it threw |
| `Drain.Runner.RunAlone` | engine/queue_runner.py:1281-1347 | one row outside a pool is refused, skipped for the disk, leased or called, and is then handled |
| `Drain.Runner.Tripped` | engine/queue_runner.py:1219-1222 | the guard trips above load 28 or below 8 GiB free, and the reading is on the trace |
| `Drain.Runner.TakeRun` | engine/queue_runner.py:1237-1260 | the run reaches exactly to the first row that is not parallel-safe; its first oversized row, and no other, is refused and left out |
| `Drain.Runner.Advance` | engine/queue_runner.py:1209-1347 | one turn of the drain loop handles exactly the rows up to the next cursor, or stops with a reason that is true: the deadline passed, the guard just tripped, or the pool stopped |
| `Drain.Runner.AdvancePool` | engine/queue_runner.py:1237-1276 | a run of parallel-safe rows is handled up to its end, or its pool stopped |
| `Drain.Runner.DrainRows` | engine/queue_runner.py:1185-1349 | under every schedule the drain returns with a legal trace, nothing running, the writer held, none left running, and its moves on the table at rest and giving the rows their states; a row is done exactly when its job exited with 0 or returned, and failed exactly when it was refused or ended otherwise; the drain handles every row unless it was late, the guard had just tripped, or a pool stopped |
| `DrainMoves.MoveIsStep` | engine/queue_runner.py:831-833 | a move open to the drain is an enabled protocol step leading to the next phase |
| `DrainMoves.OthersKeepPhase` | engine/queue_runner.py:1013-1035 | no step of another process touches a live drain's record |
| `DrainMoves.MovesRun` | engine/queue_runner.py:1185-1349 | however others interleave, the moves of a drain are a run of the protocol |
| `DrainMoves.RestedMayExit` | engine/queue_runner.py:1147-1153 | a drain that opened and came to rest has made a run of the protocol, has left the table's rows in the states its moves give, owns nothing, and may exit |
| `DrainMoves.PoolMoves` | engine/queue_runner.py:831-970 | marking a pool, releasing, reacquiring and settling every row comes to rest |
| `Looks.ValidateGrid` | engine/p15_evaluation.py:558-563 | accepts exactly the grids whose rows carry their index and the session calendar's dates |
| `Looks.RunLook` | engine/p15_evaluation.py:566-624 | the look loop computes the recursive look; a reached look concludes from the rows' own values (`LookConcludes`), a collecting one waits at the end of the grid or at a row that blocks it, with fewer scores than its target, and an error means an invalid grid, a malformed row or a missing stamp |
| `Looks.LookConcludes` | engine/p15_evaluation.py:566-624 | a reached look retains exactly the first 12, 18 or 24 scored primary rows; its means, sample variance and lag-one autocorrelation are those of the rows' values; it passes exactly when the lower end of the interval and the mean model figure are above zero, kills exactly when the upper end is below zero or the last size does not pass, and reports zero variance exactly when all deltas are equal before the last size |
| `Looks.LookWaits` | engine/p15_evaluation.py:566-600 | why a look that is not reached still collects, or failed |
| `Looks.EvaluateLooks` | engine/p15_evaluation.py:627-640 | the evaluation loop computes the looks in order of size; only the last may pass or kill, which ends the evaluation, and otherwise the next size is still collecting |
| `Looks.PrefixDetermines` | engine/p15_evaluation.py:643-650 | equal source prefixes mean equal primary rows up to the through date |
| `Looks.ScanNested` | engine/p15_evaluation.py:569-595 | a smaller target scans a prefix of what a larger one scans |
| `Looks.EnoughScoresReach` | engine/p15_evaluation.py:569-600 | enough scored primary origins before any blocked one reach the look, which then retains exactly its target number |
| `Looks.LooksAreReachable` | engine/p15_evaluation.py:566-624 | under every calendar each of the three looks can be reached |
| `Looks.FrozenLook` | engine/p15_evaluation.py:566-650 | a reached look depends only on its source prefix, apart from the diagnostic |
| `Looks.FrozenUnderExtension` | engine/p15_evaluation.py:566-650 | no valid extension of the grid changes a reached look |
| `Looks.LooksNested` | engine/p15_evaluation.py:566-640 | retained and skipped origins of the three looks are nested prefixes, and a reached larger look implies the smaller ones |
| `Looks.NothingAfterABlock` | engine/p15_evaluation.py:585-595 | no origin at or after a pending or invalid primary origin is retained |
| `Looks.FinalLookDecides` | engine/p15_evaluation.py:608-617 | the 120 look passes or kills |
| `LookLedger.ReadIsChain` | engine/p15_evaluation.py:653-679 | what the reader accepts is a hash chain, and the file is its lines |
| `LookLedger.ChainReads` | engine/p15_evaluation.py:653-679 | every prefix of a chain's file is accepted and gives that prefix |
| `LookLedger.HeadDeterminesChain` | engine/p15_evaluation.py:653-679 | two valid chains with the same last digest are the same chain |
| `LookLedger.PublishConverges` | engine/p15_evaluation.py:682-745 | from any sound store publication succeeds and makes file and database agree anchor by anchor, leaving other registrations alone |
| `LookLedger.PublishKeepsSound` | engine/p15_evaluation.py:682-745 | publication keeps the store sound |
| `LookLedger.PublishIdempotent` | engine/p15_evaluation.py:682-745 | publishing again is a no-op |
| `LookLedger.CrashRecovers` | engine/p15_evaluation.py:682-745 | after a crash at any line, which loses the database marks, the store is sound and republishing ends where an uninterrupted publication would |
| `LookLedger.PersistFacts` | engine/p15_evaluation.py:827-876 | persisting keeps the store sound, retains exactly what it returns, misses no reached look, keeps the rows that were there and other registrations, and stamps the new rows with the given time |
| `LookLedger.RunStaysSound` | engine/p15_evaluation.py:682-876 | over every run of persists, publications and crashes the file is a valid chain whose matching anchors are a prefix of the database's |
| `LookLedger.EmptyIsSound` | engine/p15_evaluation.py:58-80 | the empty store is sound |
| `LookLedger.PersistPublishLoad` | engine/p15_evaluation.py:748-876 | persisted and published looks load back exactly |
| `LookLedger.LoadIsEvaluation` | engine/p15_evaluation.py:748-824 | whatever the stores hold, a load that succeeds with every reached look required returns the evaluator's looks apart from the diagnostic |
| `LookLedger.LoadsIffVouched` | engine/p15_evaluation.py:777-815 | the rows load if and only if each one's digest is that of its body, names the row before it and the grid's own prefix, and holds the figures the grid gives now, and only the last passes or kills |
| `LookLedger.LoadIff` | engine/p15_evaluation.py:748-824 | a load succeeds if and only if the file is a hash chain, lines, anchors and rows agree one by one, every anchor is marked, every row is vouched for, and, when asked, no reached look is missing; it returns the rows' results |
| `LookLedger.LedgerStore.ReadAnchors` | engine/p15_evaluation.py:653-679 | the line loop computes the reader |
| `LookLedger.LedgerStore.PublishPending` | engine/p15_evaluation.py:682-745 | the imperative publication computes the publication function on both stores |
| `LookLedger.LedgerStore.LoadRetained` | engine/p15_evaluation.py:748-824 | the imperative load computes the load function |
| `LookLedger.LedgerStore.PersistReached` | engine/p15_evaluation.py:827-876 | the imperative persist computes the persist function and commits nothing on error |
| `LongRunVariance.NeweyWest` | engine/p15_evaluation.py:136-152 | the lag loop computes the Bartlett variance over n, the clamp at zero never acts, and t exists exactly when the series varies |
| `LongRunVariance.SquaresAreTriangle` | engine/p15_evaluation.py:143-149 | the sum of squared moving sums equals the triangular combination of autocovariances |
| `LongRunVariance.BartlettNonNegative` | engine/p15_evaluation.py:143-150 | the Bartlett variance is never negative for any series and lag, and zero only for the zero series |
| `LongRunVariance.OverlapBiasPositive` | engine/p15_evaluation.py:89-96 | the bias denominator is positive for every n >= 3 in both branches |
| `LongRunVariance.VarianceInflation` | engine/p15_evaluation.py:89-96 | the inflation is positive |
| `LongRunVariance.InflationIs` | engine/p15_evaluation.py:89-96 | the inflation with its fractions cleared, in both branches |
| `LongRunVariance.PrimaryVarianceSound` | engine/p15_evaluation.py:165-208 | the corrected variance is never negative, positive whenever the Hansen-Hodrick branch is kept, and a standard error is missing exactly for constant series |
| `LongRunVariance.UniformIsWindows` | engine/p15_evaluation.py:181-188 | n times the uniform variance is the sum of each value times the values within the lag |
| `LongRunVariance.EstimateIs` | engine/p15_evaluation.py:165-208 | the raw variance is the sum of each centred value times the values within four places, over n, while that is positive, and otherwise the squared moving sums of nine; corrected by the inflation |
| `Ranks.AverageRanks` | engine/p15_evaluation.py:110-123 | the in-place tie loop gives each element (number smaller) + (number equal + 1)/2 |
| `Ranks.OrderIsSorted` | engine/p15_evaluation.py:112 | the order the ranks walk is sorted and complete |
| `Ranks.OrderIsStable` | engine/p15_evaluation.py:112 | equal values stand in the order of their indices |
| `Ranks.RanksSum` | engine/p15_evaluation.py:110-123 | the ranks sum to n(n+1)/2 whatever the ties |
| `Ranks.RanksInvariant` | engine/p15_evaluation.py:110-123 | strictly increasing transforms leave ranks unchanged |
| `Ranks.Cauchy` | engine/p15_evaluation.py:126-133 | the squared dot product is at most the product of the squared norms |
| `Ranks.SpearmanBounded` | engine/p15_evaluation.py:126-133 | the squared Spearman numerator never exceeds the product under its root |
| `Ranks.SpearmanIs` | engine/p15_evaluation.py:126-133 | the coefficient exists exactly when both rankings vary, and its parts are the products of the ranks less n(n+1)^2/4 |
| `SplitRestate.NewScaleIslands` | engine/actions.py:537-562 | the scan finds exactly the bars entered by the ratio and left by its inverse within five sessions with nothing between |
| `SplitRestate.ScanWindow` | engine/actions.py:647-670 | the loop finds the well-placed and the misplaced matching jump nearest the ex session, the earlier on a tie, and the worst move beside it |
| `SplitRestate.CountFromIs` | engine/actions.py:647-651 | a split is recent by the number of bars stored from its date on |
| `SplitRestate.Rule` | engine/actions.py:672-688 | provenance: skipped when an old-scale bar was first stored on or after the ex-date with no rewrite to explain it, else applied with the island dates kept |
| `SplitRestate.Adjudicate` | engine/actions.py:619-698 | every outcome, by the rule that decides it |
| `SplitRestate.AppliedRestoresContinuity` | engine/actions.py:741-767 | on apply: the bar before the break is not kept; after restating, break and island edges are within 8% of no move, every other step keeps its ratio, and the break no longer matches the split |
| `SplitRestate.PlainBreakIsApplied` | engine/actions.py:619-698 | a matching jump at the ex session of a series that goes back before it is the break; it is applied, keeping the island bars, if and only if no old-scale bar was first stored from the ex-date on or a rewrite explains it |
| `SplitRestate.RestatedInRange` | engine/actions.py:762-767 | restating keeps open and close between low and high, both ways |
| `SplitRestate.TurnoverKept` | engine/actions.py:741-767 | close times volume of a restated bar stays within half a share at the new price |
| `SplitRestate.ContinuousNoMatch` | engine/actions.py:121-126 | outside the ambiguous band a continuous step never matches the ratio |
| `SplitRestate.RescaledNotional` | engine/actions.py:768-774 | a rescaled pending order is worth at a restated close what it was worth before |
| `SplitRestate.SplitStore.Restate` | engine/actions.py:722-789 | every bar before the break and not kept has its prices over the ratio and the whole volume nearest to its product with the ratio, other bars stay; pending orders signalled before the ex-date are rescaled, others stay; the count and the watermark follow; one invalid restated bar changes nothing |
| `SplitRestate.SplitStore.DecideSplit` | engine/actions.py:971-992 | the verdict is the adjudication; the store changes only when it is applied; the split is marked; a refused restatement leaves everything as it was |
| `SplitRestate.SplitStore.Reconcile` | engine/actions.py:995-1022 | the unmarked splits are decided in order until one is refused, each verdict being the adjudication of the bars the ones before it left, with bars and pending orders following each verdict and each mark its verdict; earlier marks stay, and after a finished run a second decides nothing |
| `SplitWithdrawal.LoadedAt` | engine/free_sources.py:530-560 | a page overwrites exactly the new and the eligible keys it names, with the values of the first row of each, active again |
| `SplitWithdrawal.NamedIsRefreshed` | engine/free_sources.py:541-556 | a named split takes the page's values and is active exactly when the page is newer than its first absence or withdrawal, or, for an active split, is another page not older than its own |
| `SplitWithdrawal.UpdatedExactIff` | engine/free_sources.py:562-573 | the `updated` figure equals the rows really changed if and only if no eligible key repeats; it never falls short |
| `SplitWithdrawal.RepeatOverstates` | engine/free_sources.py:562-573 | a page on which the figure is too large |
| `SplitWithdrawal.ReconcileIsBounded` | engine/free_sources.py:604-621 | one call changes at most three rows and at most a fifth of the live rows in its window |
| `SplitWithdrawal.AbsentAdvance` | engine/free_sources.py:604-636 | a response lacking at most three live splits, a fifth of them, and not all, advances exactly the absent ones from active to pending and from pending to withdrawn; any other changes nothing |
| `SplitWithdrawal.AbsenceKeepsBars` | engine/free_sources.py:177-203 | an absence that withdraws nothing leaves every split factor unchanged |
| `SplitWithdrawal.OneMoreSplit` | engine/free_sources.py:184-195 | one more split multiplies a bar's factor by to over from exactly when it is live, of the ticker, and after the bar and its fetch but not after the cutoff |
| `SplitWithdrawal.WithdrawnWasTwiceLacked` | engine/free_sources.py:620-636 | in every run a withdrawn split was lacked by two reconciliations with no accepted observation between |
| `SplitWithdrawal.PendingHasCause` | engine/free_sources.py:622-629 | a pending split was lacked by a reconciliation and not accepted since |
| `SplitWithdrawal.SplitTable.LoadSplits` | engine/free_sources.py:504-581 | the upsert loop computes the load, with both reported figures |
| `SplitWithdrawal.SplitTable.ReconcileSplits` | engine/free_sources.py:584-639 | the table change, the alarms, and the pending and withdrawn counts, each for itself |
| `BitemporalFacts.RecordKeepsChained` | engine/bitemporal_facts.py:151-183 | recording a fact keeps every row continuing the chain of its key |
| `BitemporalFacts.RunKeepsChained` | engine/bitemporal_facts.py:151-183 | so does every run of recordings |
| `BitemporalFacts.RunKeepsTimed` | engine/bitemporal_facts.py:101-121 | over every run of checked recordings no fact is ingested before it was available, nor available before it was published or happened |
| `BitemporalFacts.RevisionsContiguous` | engine/bitemporal_facts.py:165-173 | every revision from 1 to the latest is present, citing the one before it and changing the payload |
| `BitemporalFacts.RevisionsUnique` | engine/bitemporal_facts.py:46-56 | revisions of a key strictly increase, so key and revision are unique |
| `BitemporalFacts.BatchStep` | engine/bitemporal_facts.py:246-277 | looking up in the old table and appending with consecutive ids is recording one after the other |
| `BitemporalFacts.BatchFactsPass` | engine/bitemporal_facts.py:101-121 | every fact of a valid batch passes the checks of a single recording |
| `BitemporalFacts.BatchChecksAre` | engine/bitemporal_facts.py:186-222 | a batch passes exactly when its receipt does, each quote would pass alone, and no two share ticker and event |
| `BitemporalFacts.FactStore.RecordReceipt` | engine/bitemporal_facts.py:59-98 | the checks, the replay and the new receipt |
| `BitemporalFacts.FactStore.RecordFact` | engine/bitemporal_facts.py:151-183 | the checks, the replay, and the new revision: the latest fact of the key then holds the given entity, security, times, payload, source, version and receipt, and is a new row citing the one before it unless that had the same payload |
| `BitemporalFacts.FactStore.RecordQuoteBatch` | engine/bitemporal_facts.py:186-282 | a valid batch leaves the latest fact of every quote's key holding the quote's own payload with the batch's times, source, version and receipt, changes no other key, and reports each digest, the number of new facts and whether all was known; it equals recording the receipt and then each quote; an invalid one changes nothing |
| `BitemporalFacts.FactsAsKnown` | engine/bitemporal_facts.py:285-296 | returns exactly the visible rows of the highest visible revision |
| `BitemporalFacts.KnownOnce` | engine/bitemporal_facts.py:285-296 | one row per key |
| `BitemporalFacts.KnownIsStable` | engine/bitemporal_facts.py:285-296 | no run of records ingested after a cutoff changes what was known at it |
| `Planner.Fund` | engine/p16_order_planner.py:78-86 | funding in place conserves cash and keeps it non-negative; SPY gets what it wants unless that costs more than the starting cash, then what that cash buys; each stock in order gets what it wants cut to the cash left by SPY and those before it; a cut purchase is whole and the final cash cannot buy one more share of it |
| `Planner.OrdersCover` | engine/p16_order_planner.py:83-117 | the funding and repair orders are permutations sorted by alpha, down and up, ties in ticker order |
| `Planner.Reinvest` | engine/p16_order_planner.py:88-92 | leaves less than one SPY share of cash and conserves value |
| `Planner.DropBalances` | engine/p16_order_planner.py:120-122 | giving back a purchase conserves value |
| `Planner.Repair` | engine/p16_order_planner.py:112-127 | the repair gives back the weakest purchases one by one, reinvesting in SPY after each: all books before the last were rejected with a purchase to give back, and the last are accepted, or the next name bought nothing, or no name is left; value is conserved |
| `Planner.StopIsUnique` | engine/p16_order_planner.py:112-127 | there is one such place to stop |
| `Planner.MandatoryExits` | engine/p16_order_planner.py:128-133 | an infeasible plan's orders sell exactly the mandatory exits in full |
| `Planner.SideOrders` | engine/p16_order_planner.py:141-156 | one side's orders net to the changes of that side |
| `Planner.PlanWholeShares` | engine/p16_order_planner.py:42-163 | the plan is the place where repair stops, starting from SPY-first funding by falling alpha, and infeasible exactly when that is rejected; a planned result conserves cash plus holdings, keeps cash and quantities non-negative with less than one SPY share of cash, zeroes exits, keeps whole holdings whole, and, with k the most whole shares a stock's target pays for at its price, ends at k when the stock held that many and between its holding and k otherwise; it lists sells first, each side in ticker order |
| `Planner.DesiredIs` | engine/p16_order_planner.py:73-75 | a desired quantity is the most whole shares that target times equity pays for at the price |
| `Planner.PlanIsDetermined` | engine/p16_order_planner.py:78-127 | accepted inputs and limits determine the funding, the stop and the books there |
| `Planner.OrdersReachProjection` | engine/p16_order_planner.py:141-145 | orders turn current into projected holdings within 1e-12, leaving out only changes that small |
| `Planner.OrderlyIsReached` | engine/p16_order_planner.py:141-145 | every accepted plan reaches a holding exactly that is whole or at least 1e-12 from whole |
| `Planner.SoldIsReachedIff` | engine/p16_order_planner.py:141-145 | a stock that does not buy is reached exactly if and only if its excess over the rounded target is nothing or at least 1e-12 |
| `Planner.StrandedIsMissed` | engine/p16_order_planner.py:141-145 | any other holding has an accepted account whose every plan misses it |
| `Planner.StrandedHasPlan` | engine/p16_order_planner.py:93-107 | and that account has a plan, within the stock, stock-total, beta and cash limits whatever the betas of its stocks |
| `Planner.ReachedIffOrderly` | engine/p16_order_planner.py:141-163 | the holdings reached exactly by every accepted plan within those limits are the whole ones and those at least 1e-12 from whole |
| `AliasGroups.LinkRoots` | engine/p16_challenger_inputs.py:179 | hanging one root under another merges exactly their two trees |
| `AliasGroups.LinkForest` | engine/p16_challenger_inputs.py:165-179 | the parents stay a forest, so every walk to a root ends |
| `AliasGroups.OwnedKey` | engine/p16_challenger_inputs.py:178-180 | a known key merges exactly the classes of the ticker and the key's owner |
| `AliasGroups.FreshKey` | engine/p16_challenger_inputs.py:178-180 | a new key links nobody |
| `AliasGroups.AliasForest.Root` | engine/p16_challenger_inputs.py:165-168 | the walk terminates at the root |
| `AliasGroups.AliasForest.AddPair` | engine/p16_challenger_inputs.py:177-180 | one alias keeps: two tickers share a root exactly when linked by a chain of shared aliases |
| `AliasGroups.AliasForest.Group` | engine/p16_challenger_inputs.py:163-180 | the whole loop establishes that, and refuses exactly the entries without aliases or with a blank one |
| `AliasGroups.AliasForest.Groups` | engine/p16_challenger_inputs.py:181-183 | a root's group holds exactly the tickers linked to it |
| `AliasGroups.OrderDoesNotMatter` | engine/p16_challenger_inputs.py:163-192 | the grouping depends only on which ticker has which key, not on the order of reading |
| `OrderIntake.SubmitKeepsSound` | engine/paper_accounts.py:419-456 | every submission keeps one pending order per leg, limits kept by every opening order, closing orders backed or hanging on a fit parent, and one order per intake |
| `OrderIntake.RunStaysSound` | engine/paper_accounts.py:498-588 | so does every run of submissions |
| `OrderIntake.VaryingRunStaysShaped` | engine/paper_accounts.py:498-588 | with marks, positions and cash changing between submissions: one pending order per leg, contingency one level deep with child quantity at most the parent's, one order per intake |
| `OrderIntake.AdmittedWithinLimits` | engine/paper_accounts.py:436-456 | an order just admitted is within the limits of that moment, or covered by its holdings |
| `OrderIntake.AcceptedIff` | engine/paper_accounts.py:382-456 | a fresh intent is accepted if and only if its envelope passes, its leg is free, and it hangs on a fit parent or the marks, positions, cash and reservations of the moment afford it, written out for each side; the book then gains exactly its order and intake |
| `OrderIntake.DepthOneForest` | engine/paper_accounts.py:382-416 | a parent has at most one child and no child is a parent |
| `OrderIntake.ReplayAddsNothing` | engine/paper_accounts.py:459-468 | an accepted intent submitted again, after any later submissions, adds nothing and names the same order; another intent under its id is refused |
| `OrderIntake.AccountDesk.ReservedOrders` | engine/paper_accounts.py:370-379 | the accumulated dictionary holds what each ticker's opening orders reserve |
| `OrderIntake.NetAndGross` | engine/paper_accounts.py:442-447 | net exposure is the longs' worth less the shorts', gross is both together |
| `OrderIntake.ReservedOnIsWorth` | engine/paper_accounts.py:370-379 | and that is the worth of the account's buys and shorts on it |
| `OrderIntake.AccountDesk.HasCapacity` | engine/paper_accounts.py:419-456 | the capacity rules |
| `OrderIntake.AccountDesk.Submit` | engine/paper_accounts.py:498-588 | the imperative submission computes the submission function |
| `RssTailer.SplitConcat` | engine/p15_event_sources.py:263 | splitting at a newline-ended prefix and the rest apart is splitting them together |
| `RssTailer.SplitIs` | engine/p15_event_sources.py:263 | woven with their ends the lines are the text; no line holds an end, and no carriage return is torn from its newline |
| `RssTailer.RowsTile` | engine/p15_event_sources.py:261-288 | rows of consecutive segments are the rows of both parsed at once |
| `RssTailer.RowsAre` | engine/p15_event_sources.py:261-288 | the rows are the readings, in order, of exactly the lines that are not blank, not over 8192 bytes, and read as headlines |
| `RssTailer.RssRows` | engine/p15_event_sources.py:261-288 | the line loop computes the accepted rows |
| `RssTailer.RunStaysFaithful` | engine/p15_event_sources.py:291-384 | over every schedule of appends and bounded reads the checkpoint is on a line boundary, the segments tile the file, and the rows are those of the consumed part at once |
| `RssTailer.FullReadAdvances` | engine/p15_event_sources.py:319-337 | a full read advances exactly when a line ends within the bound, and then past the last line end in it |
| `RssTailer.Tailer.Ingest` | engine/p15_event_sources.py:291-384 | one read keeps that, raises exactly when it should, and reports complete, partial or partial-invalid by what it read |
| `OccSymbols.NormaliseIdempotentIff` | engine/instruments.py:38-44 | normalising twice is normalising once if and only if the text is not blank |
| `OccSymbols.NormalisePadded` | engine/instruments.py:38-44 | the padded form of a compact symbol normalises to it |
| `OccSymbols.ParseThenFormat` | engine/instruments.py:47-87 | every valid symbol, padded or compact, formats back to its padded form and both forms parse to the same instrument |
| `OccSymbols.FormatThenParse` | engine/instruments.py:75-87 | every instrument that formats parses back with root, month, day, strike and right; the year survives if and only if it is in 1969-2068 |
| `OccSymbols.FormatsIff` | engine/instruments.py:75-87 | exactly the options with a root of one to six letters, digits and dots, an expiry, a right and a strike of whole thousandths on eight digits format |
| `OccSymbols.ParsesIff` | engine/instruments.py:47-72 | a text parses if and only if it normalises to the compact form of an instrument that formats with its year in the window |
| `OccSymbols.BlankIsNotIdempotent` | engine/instruments.py:38-44 | the blank text on which idempotence fails |
| `OccSymbols.ReadPrintDate` | engine/instruments.py:53 | a printed date reads back inside the two-digit window |

## Left out

- DuckDB, SQL planning, schema migration, HTTP, retries, real processes and signals: tables are values, transactions are atomic, and the outside answers through parameters.
- Drain.Runner.RunPool: does not model spawn failures and other exceptions inside the pool (engine/queue_runner.py:936-946); they end the drain, which is the crash step of `QueueProtocol`. Unreadable walk-forward parameters are its only exceptional exit.
- `backfill` rows inserted outside the drain lock: only rows created by the enqueue command are modelled.
- The drain's selection query, its outcome line and the scratch-directory sweep are not part of this model.
- DrainTrace.AlwaysFits: does not cover negative declared memory, for which it is false; `UnsafeIffNegative` is the exact condition.
- Floating-point rounding, NaN filters and square roots: reals, finite inputs and squared standard errors.
- The Hansen-Hodrick diagnostic interval of a look and the other diagnostics of the evaluation.
- SplitRestate.SplitStore.Restate: takes the store's bar checks as a predicate of the restated bar, whose volume is rounded half away from zero as SQL does; the source's check sees Python's rounding. The simulator's rebuild of positions, the tripwire and the break scan are not part of this model.
- SplitRestate.SplitStore.Reconcile: models one ticker's store; the source loops over all tickers.
- The key order in which `facts_as_known` lists its rows.
- The text, time-zone and shape checks of intents, specifications, quotes and split pages: each module takes them as a predicate, or as already typed values.
- OrderIntake.SubmitKeepsSound: holds at fixed marks, positions and cash; `VaryingRunStaysShaped` and `AdmittedWithinLimits` say what holds when they change. Fills and cancellations are not steps.
- OrderIntake.RunStaysSound: as `SubmitKeepsSound`.
- Planner.PlanWholeShares: the limits that make a rounded plan invalid are an arbitrary predicate of quantities and cash. `plan_mandatory_exit_orders` is not part of this model.
- Planner.ReachedIffOrderly: its limits are the planner's own numbers; sector limits are not among them.
- OccSymbols.ParseThenFormat: covers ASCII text; Unicode digits, case and spaces are not modelled.
- The replacement patterns of the blinding step, `memory_examples`, the text-trigger pager and the request rate limiter.
- Account creation and specification replay are not part of this model.
