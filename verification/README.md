# Event pipeline: model and proofs

A Dafny model of a distributed cleaner for capping-machine day-files and of the
analytics on top of it. A coordinator hands day-files to workers over an
anonymous queue; each worker turns a file's raw polls into counter-change
events and writes them into its own keyed store; the stores of the workers that
were not written off are merged at the end. The proofs are about what survives
when workers die, wake up again, leave, fail half-way or race each other.

`dafny verify dfyconfig.toml` checks everything.

## The parts

| files | models |
|---|---|
| `Protocol`, `CoordinatorSpec`, `CoordinatorLaws`, `CoordinatorPasses`, `CoordinatorRuns`, `CoordinatorEffects`, `CoordinatorSigns`, `CoordinatorItems`, `CoordinatorCredits`, `CoordinatorSteps`, `Coordinator` | `run_coordinator`: gate, main loop, shutdown. `Coordinator.Dispatcher` updates the same structures in place; every method is proved equal to a function in `CoordinatorSpec`, and the laws are proved of those functions for any frame, any heartbeats, any clock readings and any set of refused sends. `CoordinatorSigns`, `CoordinatorItems` and `CoordinatorCredits` say what a pass comes to for each worker, each item and each credit in terms of the input alone |
| `Worker`, `WorkerSteps` | the cleaning agent's loop, its failure codes and its channels; and that it makes only the steps `System` allows |
| `System`, `EndToEnd`, `Example` | coordinator and workers together: FIFO result pipes, a bag of queued work that may go to anyone, stores, crashes, lost frames, written-off stores; `Example` builds one run that credits a file, so the theorems' hypotheses can be met |
| `Extractor`, `Encoding`, `Cells`, `Pipeline` | the dedup transform in its four programs, what can be read back from its output and from the table it is stored in, and the batching loop |
| `Store`, `MergeTool`, `Pool` | the keyed table: staged writes, merges, the skip-and-retry merge tool, the thread pool |
| `Publish` | the Parquet store's lifecycle and the temp-and-rename publish under racing writers |
| `Idle`, `IdleQuery`, `MannKendall` | the gaps-and-islands query, first on one head's ordered rows and then on a table of all heads; the Mann-Kendall integer core |
| `Quoting`, `Codec`, `Decimal` | the Windows command line; the wire format |

The main results are `EndToEnd.CreditedFilesAreMerged` and
`EndToEnd.SummaryIsExact` (what the summary credits is in every merge of the
surviving stores, and its totals are exact), `EndToEnd.NothingStranded`,
`Coordinator.Dispatcher.Run` (total correctness, and which results it credits),
`CoordinatorSigns.PassLives`, `CoordinatorItems.SweepItem`, `Pool.MultiThread`,
`Pool.PoolIsOneThread`,
`MergeTool.MasMerge`, `Publish.DestinationIsWhole`, `Encoding.LosslessIffDistinct`,
`Cells.TableDeterminesIffDistinct`, `IdleQuery.ReportedIff`, `Quoting.LineRoundTrip`, and the Mann-Kendall bounds.

## How the environment appears

Sockets, clocks, the database engine and the file system are parameters. A pass
of the coordinator takes one optional frame, any list of heartbeats with their
arrival times, a clock reading, and the sets of paths whose re-send the work
socket refuses in that pass; a path is re-sent at most once in each phase of a
pass, so these sets say everything a sequence of refusals can. A frame decodes
before it reaches the coordinator (`Codec.FrameOf` says how). The log carried by
`Coord` is instrumentation: no branch reads it.

Each SQL statement is one atomic step. A worker's store is a partial map keyed on
(machine, head, timestamp); payload columns are compared by value. Counts are
unbounded integers with the 64-bit and 32-bit limits stated where they matter.

## Where the code and its comments part

* Losslessness. The code's comments argue that a timestamp identifies an
  observation. That is exactly what losslessness needs: on a machine with
  heads, however many, the seed and the events determine the counters if and
  only if the timestamps after the first are distinct
  (`Encoding.LosslessIffDistinct`).
* Reject bit. `python/oracle.py` and `core/include/mas/domain/CapEvent.hpp` give the same
  answer exactly when the status is finite and is within ±2^53 or truncates to
  an odd integer (`Extractor.RejectsAgree`). NaN and the infinities are rejects
  in C++ and raise in Python; beyond ±2^53 an even status is a reject in C++
  only, and 9007199254740994.0 is one that the loader admits
  (`Extractor.RejectsDisagree`).
* Stops. The comment above the shutdown speaks of tombstoned workers; the code
  counts every worker that is not alive, announced departures included.
* Departures. A goodbye that finds an outstanding claim re-dispatches the item
  only while somebody is live. `EndToEnd.ByeOwesNothing` shows that workers
  that follow their own order never get there.
* Command line. Arguments always read back; the program name does exactly when
  it holds no quote and, if it had to be quoted, does not end in a backslash
  (`Quoting.LineRoundTrip`).

## Model

| member | source | states |
|---|---|---|
| Coordinator.Dispatcher.constructor | core/src/agent/Coordinator.cpp:34-44 | duplicate paths collapse: `open` starts as the number of distinct paths |
| Coordinator.Dispatcher.Touch | core/src/agent/Coordinator.cpp:46-57 | a sign of life registers or refreshes; a worker that is gone is refused and unchanged |
| Coordinator.Dispatcher.CountLive | core/src/agent/Coordinator.cpp:59-66 | the number of live workers |
| Coordinator.Dispatcher.TryRedispatch | core/src/agent/Coordinator.cpp:98-108 | a refused send settles the item as failed, an accepted one puts one more frame on the wire |
| Coordinator.Dispatcher.MarkDeparted | core/src/agent/Coordinator.cpp:115-138 | every item the departing worker holds is released, and re-dispatched while somebody is live |
| Coordinator.Dispatcher.OnResult | core/src/agent/Coordinator.cpp:195-260 | dead sender, duplicate, retry within the cap, credit, failure: the whole new state |
| Coordinator.Dispatcher.OnClaim | core/src/agent/Coordinator.cpp:261-294 | a live claimant becomes the holder; a stale claim re-sends an open unheld item |
| Coordinator.Dispatcher.Receive | core/src/agent/Coordinator.cpp:194-300 | one lifecycle tick by frame kind |
| Coordinator.Dispatcher.Drain | core/src/agent/Coordinator.cpp:303-310 | heartbeats applied in order, undecodable ones skipped |
| Coordinator.Dispatcher.TombstoneSilent | core/src/agent/Coordinator.cpp:315-333 | exactly the live workers silent past the threshold are buried, and all their completions reopened with counters taken back |
| Coordinator.Dispatcher.RedistributeOpen | core/src/agent/Coordinator.cpp:342-390 | the item-by-item loop equals re-dispatch by attribution, in whatever order the items are visited |
| Coordinator.Dispatcher.Sweep | core/src/agent/Coordinator.cpp:312-390 | tombstoning then attribution, only when somebody died |
| Coordinator.Dispatcher.Pass | core/src/agent/Coordinator.cpp:190-401 | the four parts in their pinned order, and conservation after them |
| Coordinator.Dispatcher.GateTick | core/src/agent/Coordinator.cpp:147-168 | before the dispatch a frame or beat only registers, refreshes or retires its sender |
| Coordinator.Dispatcher.Gate | core/src/agent/Coordinator.cpp:143-181 | terminates; takes the environment's inputs in order, for exactly as many ticks as the registrations and the timeout say; refuses exactly when nobody registered |
| Coordinator.Dispatcher.Dispatch | core/src/agent/Coordinator.cpp:182 | one frame per listed item; throws exactly when one of them is refused |
| Coordinator.Dispatcher.Shutdown | core/src/agent/Coordinator.cpp:415-435 | one STOP per worker ever registered unless a send fails, none when nobody is live |
| Coordinator.Dispatcher.Loop | core/src/agent/Coordinator.cpp:190-401 | terminates for every finite script of inputs followed by silence with time advancing, whatever sends are refused; its end state is what the passes make of the script from where the gate left it, one input after the other, up to the first pass that leaves nothing open |
| Coordinator.Dispatcher.Run | core/src/agent/Coordinator.cpp:30-437 | total correctness: the outcome is decided by the inputs in their order; every distinct path is counted ok or failed exactly once on every exit; the credits are exactly the results that live workers reported for open items, less those of tombstoned workers |
| CoordinatorPasses.HeldIffPresent | core/src/agent/Coordinator.cpp:279-286 | between passes the `held_by_live` lookup is presence in the holder map |
| CoordinatorPasses.ReceiveKeeps | core/src/agent/Coordinator.cpp:194-300 | a tick keeps conservation, attribution and budget, and credits at most the frame's own result |
| CoordinatorPasses.SweepKeeps | core/src/agent/Coordinator.cpp:312-390 | so does a sweep, which only removes credits |
| CoordinatorPasses.SweptKeeps | core/src/agent/Coordinator.cpp:190-390 | a whole pass before the abort check keeps them |
| CoordinatorRuns.PassKeeps | core/src/agent/Coordinator.cpp:190-401 | a pass keeps the invariant, or ends the run with balanced counters |
| CoordinatorRuns.RunConserves | core/src/agent/Coordinator.cpp:190-401 | after any number of passes: ok + failed + open is the number of distinct paths, ok and total are the size and sum of the surviving completion lists, each ok item in exactly one of them |
| CoordinatorRuns.DispatchInv | core/src/agent/Coordinator.cpp:182 | the initial dispatch establishes the loop's invariant |
| CoordinatorRuns.ChargeHasCause | core/src/agent/Coordinator.cpp:227-247 | an item's budget rises by at most one a pass, only for its own accepted -2 or its own holder's death |
| CoordinatorRuns.ResendsBounded | core/src/agent/Coordinator.cpp:227-390 | during the loop and at return an item was charged at most the cap, and its re-sends never exceed the cap plus deaths, departures and its stale claims |
| CoordinatorRuns.RedistributeEffect | core/src/agent/Coordinator.cpp:362-389 | per item: charged, settled, re-sent or left alone, by who held it |
| CoordinatorRuns.QuietPassIsLast | core/src/agent/Coordinator.cpp:312-400 | a frame-free pass later than every deadline is the last, whatever the work socket refuses |
| CoordinatorRuns.PassAttends | core/src/agent/Coordinator.cpp:190-401 | each open item stays held by a live worker or re-sent no earlier than the latest death |
| CoordinatorEffects.PassHolder | core/src/agent/Coordinator.cpp:190-390 | a holder entry comes only from the claim just received, and never survives its own result |
| CoordinatorEffects.ResultOutcome | core/src/agent/Coordinator.cpp:208-258 | a live worker's count for an open item is credited, -2 within the budget goes out once more at the item's charge, any other failure settles it |
| CoordinatorEffects.SweepUncredits | core/src/agent/Coordinator.cpp:317-333 | a sweep takes back exactly the credits of the workers it buries |
| CoordinatorEffects.DeadWorkReopened | core/src/agent/Coordinator.cpp:324-372 | every file a dead worker was credited with is open again, and re-sent in the same pass while somebody is live |
| CoordinatorEffects.PassGone | core/src/agent/Coordinator.cpp:46-57 | a tombstoned or departed worker never becomes anything else |
| CoordinatorSigns.PassLives | core/src/agent/Coordinator.cpp:303-333 | a live worker that does not say goodbye outlives a pass exactly when its latest frame or beat is no older than the threshold, and is known by that time with its completions kept; otherwise it is tombstoned without them; newcomers need a sign, and nobody comes back |
| CoordinatorSigns.HeardSigns | core/src/agent/Coordinator.cpp:46-57 | the registry before the sweep, worker by worker, from the latest sign of life in the input |
| CoordinatorSigns.GreetSigns | core/src/agent/Coordinator.cpp:147-168 | the same for a tick of the registration gate |
| CoordinatorItems.ReceiveItem | core/src/agent/Coordinator.cpp:194-300 | what every frame makes of every item: the new state, its holder and the frame sent for it; dropped and foreign frames change nothing |
| CoordinatorItems.SweepItem | core/src/agent/Coordinator.cpp:312-390 | what every sweep makes of every item, from its holder's and creditor's last signs of life, its spent budget and the refused sends |
| CoordinatorItems.PassEnds | core/src/agent/Coordinator.cpp:392-401 | the loop goes on exactly while an item is open and somebody is live, or nobody has shown up within the threshold; giving up counts the open items as failed |
| CoordinatorCredits.PassCredits | core/src/agent/Coordinator.cpp:208-333 | a pass credits exactly what was credited before or is reported now for an open item, less what it tombstones |
| CoordinatorCredits.RunCredits | core/src/agent/Coordinator.cpp:190-401 | the same over whole runs: the credits are the results reported at some pass of the run whose worker is not tombstoned |
| CoordinatorCredits.DeliveredStays | core/src/agent/Coordinator.cpp:250-257 | a count delivered for an open item stays credited unless its worker is tombstoned |
| Worker.CleaningWorker.Beat | core/src/agent/CleaningWorker.cpp:17-30 | a failed heartbeat send loses the beat only; its number is not reused |
| Worker.CleaningWorker.Clean | core/src/agent/CleaningWorker.cpp:56-85 | exactly the batches before the first failure are stored and decide the code, the count for all of it, -2 for some batches, -1 for none; beats are sent as the clock demands |
| Worker.CleaningWorker.Send | core/src/agent/CleaningWorker.cpp:51-91 | a results frame is appended, or the send throws and nothing is |
| Worker.CleaningWorker.Handle | core/src/agent/CleaningWorker.cpp:51-91 | one claim, then one result, with beats in between; a claim that throws leaves the store alone, a result that throws does not take the cleaning back |
| Worker.CleaningWorker.Run | core/src/agent/CleaningWorker.cpp:32-99 | the results channel is one claim-result pair per well-formed work frame before the end, then a goodbye exactly when the run ended on 60 empty ticks; a results send that throws ends the run and cuts exactly that last frame off |
| Worker.EndIsDetermined | core/src/agent/CleaningWorker.cpp:37-48 | the frames received alone decide when a run ends and how |
| Worker.SixtyTicks | core/src/agent/CleaningWorker.cpp:37-43 | an idle exit comes at the first sixty empty ticks in a row |
| Worker.CodeTells | core/src/agent/CleaningWorker.cpp:79-85 | -1 means that no batch of the file is in the store, -2 that some but not all are, a count that all are |
| Worker.CountedIff | core/src/agent/CleaningWorker.cpp:76-85 | a file is counted exactly when it opens, is not torn, has no malformed timestamp and the store refuses none of its batches |
| Worker.DeliveredIncrease | core/src/agent/CleaningWorker.cpp:24-29 | delivered heartbeat numbers strictly increase, whichever sends failed |
| Worker.RetryIsOneRun | core/src/agent/CleaningWorker.cpp:63-85 | whatever number of attempts failed before, part-way or at once, an attempt that reports a count leaves the table of one clean run |
| WorkerSteps.ItemIsSteps | core/src/agent/CleaningWorker.cpp:49-91 | what the worker does to an item is a path of steps of the composed system |
| System.ProcKeeps | core/src/agent/CleaningWorker.cpp:49-97 | every worker step keeps frames in order and every reported count backed by stored rows; stores only grow |
| EndToEnd.StepKeeps | core/src/agent/Coordinator.cpp:190-401 | every step of coordinator, worker, crash or loss keeps the system invariant |
| EndToEnd.ByeOwesNothing | core/src/agent/Coordinator.cpp:122-138 | a goodbye never finds an outstanding claim |
| EndToEnd.RunSafe | core/src/agent/Coordinator.cpp:190-401 | the invariant holds after every run of every interleaving |
| EndToEnd.SummaryIsExact | core/src/agent/Coordinator.cpp:250-257 | `total_events` is exactly the sum over the distinct files counted ok, and the file counters cover every item at the end |
| EndToEnd.CreditedFilesAreMerged | core/src/agent/Coordinator.cpp:194-333 | each file counted ok has all its rows in the store of a worker that is neither tombstoned nor unreadable, and in every merge of the surviving stores, in any order, with or without the written-off ones |
| EndToEnd.NothingStranded | core/src/agent/Coordinator.cpp:342-390 | at every loop head each open item is with a live worker that owes its result, or was sent again no earlier than the latest death |
| EndToEnd.CleaningsBounded | core/src/agent/Coordinator.cpp:227-390 | how often any item can be handed to a worker, in every state of every run, after the coordinator's return too |
| Example.CreditingRun | core/src/agent/CleaningWorker.cpp:49-91 | a run of the composed system from the initial dispatch to a credited file exists |
| Extractor.RejectsAgree | core/include/mas/domain/CapEvent.hpp:34-42 | when the C++ and Python reject tests agree, both directions, for every double including NaN and the infinities |
| Extractor.RejectsDisagree | core/include/mas/domain/CapEvent.hpp:34-63 | a status the loader admits that is a reject in C++ and none in Python |
| Extractor.NoOverflow | core/include/mas/domain/DeltaPolicy.hpp:22-25 | within ±2^53 the jump fits 64 bits and the delta 32 |
| Extractor.CapEventExtractor.Process | core/src/domain/CapEventExtractor.cpp:24-44 | a row's events against the last observation of each head, which it then replaces |
| Extractor.ExtractStateful | core/src/domain/CapEventExtractor.cpp:24-44 | row by row it emits the stream of changes between consecutive polls |
| Extractor.FlatRow | core/src/domain/CapEventExtractorFlat.cpp:72-94 | the flat-index inner loop emits one row's changes |
| Extractor.ExtractFlat | core/src/domain/CapEventExtractorFlat.cpp:69-95 | the element-wise form emits the same stream |
| Extractor.ExtractReference | python/oracle.py:25-68 | the Python loop emits the same stream in its own dialect |
| Extractor.VectorizedIsStream | python/clean_vectorized.py:98-121 | one difference and `nonzero` emit the same stream |
| Extractor.DialectsAgree | python/clean_vectorized.py:107-121 | event for event the C++ stream is the Python stream with delta capped at INT_MAX and the C++ reject bit |
| Extractor.EventAgrees | core/include/mas/domain/DeltaPolicy.hpp:22-25 | an event is reported alike by both languages exactly when its jump fits INT_MAX and its status is read alike |
| Encoding.RowTrail | core/src/domain/CapEventExtractor.cpp:25-43 | at most one event per row and head, and only for a change |
| Encoding.StreamIsRunLength | core/src/domain/CapEventExtractor.cpp:24-44 | seed and one head's counts are its counter with held stretches collapsed |
| Encoding.StepsAreSaturated | core/src/domain/CapEventExtractor.cpp:32-41 | each event's delta, reset and aggregated are about the count before it |
| Encoding.CountsRecovered | core/src/domain/CapEventExtractor.cpp:24-44 | with distinct timestamps every count of every row can be read back |
| Encoding.LosslessIffDistinct | core/src/domain/CapEventExtractor.cpp:24-44 | without them it cannot: for any number of heads, losslessness holds if and only if there are no heads or the timestamps are distinct |
| Cells.StreamIsCells | core/src/domain/CapEventExtractor.cpp:24-44 | the stream is the list of changed cells in poll and head order, each event telling its own cell's time, count, torque, status, reject bit and step |
| Cells.CellStored | core/src/store/DuckDbEventStore.cpp:125-180 | after a clean run the table has a row under a cell's head and time exactly when its count changed, and the row shows the cell's count, torque and status |
| Cells.TableDeterminesIffDistinct | core/src/store/DuckDbEventStore.cpp:46-59 | the stored table determines every count of the file if and only if the database tells the polls apart |
| Pipeline.BatchesLaw | core/src/domain/Pipeline.cpp:15-31 | the batches concatenate to the stream; each but the last is full and overshoots by less than one row |
| Pipeline.MachineBatches | core/src/domain/Pipeline.cpp:15-27 | for 36 heads a mid-file batch holds 8192 to 8227 events |
| Pipeline.BeatingStore.Write | core/include/mas/store/BeatingStore.hpp:22-30 | counts only what the inner store accepted, and beats when due |
| Pipeline.CleanFile | core/src/domain/Pipeline.cpp:9-32 | stops at the first refused, malformed or unread batch, and nowhere else, with exactly the batches before it stored; a success stores all and returns the stream's length |
| Pipeline.BeatsLaw | core/include/mas/store/BeatingStore.hpp:22-30 | beats are at least the interval apart and no write is an interval past the latest |
| Pipeline.BatchingInvisible | core/src/domain/Pipeline.cpp:20-29 | batch by batch or at once: the same table |
| Pipeline.RetriedFileIsClean | core/src/agent/CleaningWorker.cpp:66-73 | re-running a file whose first batches landed gives the table of one clean run |
| Store.InsertOverlay | core/src/store/DuckDbEventStore.cpp:166-170 | insert-or-ignore lays what is there over the new rows |
| Store.FirstWins | core/src/store/DuckDbEventStore.cpp:166-170 | of several new rows of one key the first is kept |
| Store.KeysApart | core/src/store/DuckDbEventStore.cpp:46-59 | two events share a key exactly when head and cast timestamp are the same |
| Store.FreshTable | core/src/store/DuckDbEventStore.cpp:132-170 | into an empty table every first observation goes with its own head, time and columns, and nothing else is there |
| Store.CleanTable | core/src/store/DuckDbEventStore.cpp:132-170 | the table has one row per event if and only if no two events are the same observation, and then every column of every event can be read back |
| Store.RetryCompletes | core/src/store/DuckDbEventStore.cpp:145-153 | a prefix followed by the whole is the whole, whatever was there before |
| Store.UnionUnique | core/src/store/DuckDbEventStore.cpp:245-251 | when shared keys agree, order and method of merging are invisible |
| Store.DuckDbStore.constructor | core/src/store/DuckDbEventStore.cpp:113-121 | opening clears rows a crashed run left staged |
| Store.DuckDbStore.InsertStaged | core/src/store/DuckDbEventStore.cpp:166-170 | the statement casts every staged timestamp or changes nothing |
| Store.DuckDbStore.Write | core/src/store/DuckDbEventStore.cpp:125-180 | all or nothing, with nothing left staged either way |
| Pipeline.WritesFold | core/src/store/DuckDbEventStore.cpp:125-180 | after any sequence of writes, malformed ones among them, the table is one insertion of the castable batches |
| Store.DuckDbStore.MergeFrom | core/src/store/DuckDbEventStore.cpp:187-205 | a readable source is folded in, an unreadable one throws; no alias survives |
| Store.DuckDbStore.InsertDistinct | core/src/store/DuckDbEventStore.cpp:241-251 | any choice among duplicates is a union of the sources |
| Store.DuckDbStore.MergeAll | core/src/store/DuckDbEventStore.cpp:207-257 | a union of destination and sources on success; on failure a union with a prefix of them, or nothing; no alias survives |
| Store.AliasesDiffer | core/src/store/DuckDbEventStore.cpp:234 | the bulk merge's aliases never collide |
| MergeTool.MasMerge | core/src/apps/merge_main.cpp:30-60 | whatever a failed bulk attempt left, the result is the union of the destination and the readable sources; merged + skipped is the number of sources; exit 1 exactly when there were sources and none was readable |
| MergeTool.MergesCoincide | core/src/apps/merge_main.cpp:30-45 | the same readable tables in any order and by any route: the same keys, and the same rows when they agree |
| Pool.CleanInto | core/src/apps/monolith_main.cpp:311-322 | one file into the one store: all its rows, unless the file is malformed or a write is refused |
| Pool.OneThread | core/src/apps/monolith_main.cpp:311-322 | one store, file after file: the insert-or-ignore fold of all rows, exactly when every file is clean and no write is refused |
| Pool.FileIsStream | core/src/domain/Pipeline.cpp:9-32 | a file counts its stream's events, and a clean one puts the row of each into the store |
| Pool.TotalIsRows | core/src/apps/monolith_main.cpp:311-400 | the event total is the number of rows that go to the stores |
| Pool.ThreadPool.Ask | core/src/apps/monolith_main.cpp:366-368 | `fetch_add` hands each index to one thread |
| Pool.ThreadPool.WriteBatch | core/src/apps/monolith_main.cpp:369-376 | the batch goes into the thread's own store, or, refused or malformed, ends the thread there with the run failed and no store changed |
| Pool.ThreadPool.FinishFile | core/src/apps/monolith_main.cpp:369-370 | a file's count is recorded, or -1 with the run failed when it cannot be read; the thread asks for the next either way |
| Pool.ThreadPool.Join | core/src/apps/monolith_main.cpp:341-383 | every schedule of the threads ends |
| Pool.MultiThread | core/src/apps/monolith_main.cpp:331-428 | succeeds on exactly the inputs on which one thread does, then with its event total and key set, and its table when shared keys agree; a failure leaves the destination alone |
| Pool.PoolIsOneThread | core/src/apps/monolith_main.cpp:398-414 | for every thread count and every hand-out of files, the merged keys are the one-thread table's, and the rows too when shared keys agree |
| Idle.LagIsPrevious | python/analytics/tools/idle.py:45-51 | LAG within an island is the row just before, or NULL |
| Idle.SameIsland | python/analytics/tools/idle.py:38-46 | the row-number difference is shared exactly by no-load rows with nothing else between them |
| Idle.GroupsAreRuns | python/analytics/tools/idle.py:45-65 | two rows are grouped exactly when they belong to one sustained run |
| Idle.ScanLaw | python/analytics/tools/idle.py:28-33 | the scan's spans are maximal sustained runs, in order, and cover exactly the no-load rows |
| Idle.IslandsAreScan | python/analytics/tools/idle.py:34-71 | over one head's ordered rows the query's reports are exactly the scan's runs of at least the threshold |
| Idle.GroupTimes | python/analytics/tools/idle.py:61-62 | a group's start and end bound all its times |
| Idle.StartsIncrease | python/analytics/tools/idle.py:66-70 | ordered by start, periods of a head are disjoint |
| Idle.Summarise | python/analytics/tools/idle.py:89-105 | per-head counts and totals are over that head's periods and add up to the total idle time |
| IdleQuery.QueryIsScan | python/analytics/tools/idle.py:34-71 | over a table of any heads in any order, with the window functions partitioned as written, the periods reported for a head are exactly the long enough runs of the scan over that head's own ordered rows |
| IdleQuery.ReportedIff | python/analytics/tools/idle.py:28-71 | a period is reported for a head exactly when it is a maximal stretch of no-load rows without a gap over the limit, of at least the threshold |
| IdleQuery.ReportExists | python/analytics/tools/idle.py:69-70 | every table has its report: each period once, by head and then by start |
| IdleQuery.HeadIsScan | python/analytics/tools/idle.py:66-71 | a head's part of the ordered report is the scan's list, in its order and without repetition |
| IdleQuery.SummariseReport | python/analytics/tools/idle.py:89-105 | count and seconds per head are those of the head's scan, heads without a long enough run have no entry, and the total idle time is the sum over the heads |
| MannKendall.BlockedS | python/analytics/tools/trend.py:45-52 | for any length and block size the blocked sum is the number of rising pairs less the number of falling ones |
| MannKendall.SCounts | python/analytics/tools/trend.py:31-74 | S is rising less falling pairs, T the tied ones, D all of them, told apart by comparing values |
| MannKendall.SExtremes | python/analytics/tools/trend.py:31-52 | S is D exactly for a series that only rises and -D exactly for one that only falls |
| MannKendall.Counter | python/analytics/tools/trend.py:70-71 | one group per distinct value, whose sizes give the number of tied pairs and the tie term of the variance |
| MannKendall.SBound | python/analytics/tools/trend.py:66-74 | S lies between -(D - T) and D - T, and D = T exactly when all values tie |
| MannKendall.TauInRange | python/analytics/tools/trend.py:74 | S squared never exceeds D (D - T), so tau is at most 1 in size |
| MannKendall.TauBounded | python/analytics/tools/trend.py:66-74 | the quotient of S by the root of D (D - T) lies between -1 and 1 |
| MannKendall.SpreadBound | python/analytics/tools/trend.py:93-96 | the variance numerator is never negative, and zero exactly when all values tie |
| MannKendall.Tau | python/analytics/tools/trend.py:55-74 | S over the root of D (D - T), at most 1 in size; degenerate exactly for fewer than two values or all tied |
| MannKendall.PValue | python/analytics/tools/trend.py:77-103 | degenerate on exactly the same inputs; otherwise the variance numerator written out over the tie groups, and S with the continuity correction |
| MannKendall.ReversedTrend | python/analytics/tools/trend.py:31-52 | reading the series backwards negates S |
| Quoting.AppendQuoted | bench/win_time.cpp:22-45 | the loop prints the argument's quoted form behind a separating space |
| Quoting.PlainIff | bench/win_time.cpp:22-26 | an argument is printed as it is exactly when it is not empty and has no blank, tab or quote |
| Quoting.BuildLine | bench/win_time.cpp:69-71 | program name and arguments, each quoted |
| Quoting.DoubledIsQuote | bench/win_time.cpp:21-45 | inside quotes the newer runtimes read a doubled quote as one |
| Quoting.DoubledIsNothing | bench/win_time.cpp:21-45 | the older ones read none |
| Quoting.ArgumentsRoundTrip | bench/win_time.cpp:21-45 | the C runtime's rules read every argument list back, with either treatment of doubled quotes |
| Quoting.LineRoundTrip | bench/win_time.cpp:66-71 | the whole line reads back if and only if the program name is one its own rules can express |
| Codec.SplitLines | core/src/agent/Message.cpp:15-27 | the find loop cuts at every newline |
| Codec.LinesOfJoin | core/src/agent/Message.cpp:15-27 | splitting undoes joining newline-free fields |
| Codec.JoinOfLines | core/src/agent/Message.cpp:15-27 | joining undoes splitting, and no field holds a newline |
| Codec.WorkRoundTrip | core/src/agent/Message.cpp:31-45 | a work item decodes to itself unless its path is empty |
| Codec.WorkDecodes | core/src/agent/Message.cpp:41-45 | a payload is a work item exactly when it is its two lines |
| Codec.ResultRoundTrip | core/src/agent/Message.cpp:35-77 | a result decodes to itself exactly inside the admitted ranges |
| Codec.ResultDecodes | core/src/agent/Message.cpp:47-77 | a payload is a result exactly when it is the five lines with a readable count from -2 to 10^12, a duration in range and a worker |
| Codec.StollIff | core/src/agent/Message.cpp:54-59 | exactly the written 64-bit numbers are read: blanks, one sign, digits to the end |
| Codec.ResultOnTheWire | core/src/agent/Message.cpp:35-39 | one result and one heartbeat as text |
| Codec.HeartbeatRoundTrip | core/src/agent/Message.cpp:79-95 | a heartbeat decodes to itself exactly when it names a worker and is not negative |
| Codec.HeartbeatDecodes | core/src/agent/Message.cpp:84-95 | a payload is a heartbeat exactly when it is its three lines with a readable number that is not negative |
| Codec.ClaimRoundTrip | core/src/agent/Message.cpp:97-106 | a claim decodes to itself exactly when both fields are there |
| Codec.ClaimDecodes | core/src/agent/Message.cpp:101-106 | a payload is a claim exactly when it is its three lines, none empty |
| Codec.GoodbyeRoundTrip | core/src/agent/Message.cpp:108-116 | a goodbye decodes to itself exactly when it names a worker |
| Codec.GoodbyeDecodes | core/src/agent/Message.cpp:112-116 | a payload is a goodbye exactly when it is its two lines, none empty |
| Codec.AtMostOneKind | core/src/agent/Message.cpp:41-120 | every payload is at most one kind of message |
| Codec.FramesArrive | core/src/agent/Message.cpp:35-116 | the frames a worker sends are the frames the coordinator acts on |
| Codec.TotalBounded | core/src/agent/Message.cpp:58-72 | whatever bytes arrive, the event total stays within 10^12 per file counted ok |
| Publish.TempNamesDiffer | core/include/mas/store/AtomicPublish.hpp:44-55 | temps of distinct (pid, token) pairs differ |
| Publish.SortLaw | core/src/store/ParquetEventStore.cpp:221-225 | the published content is an ordered permutation of the rows accepted |
| Publish.ParquetEventStore.Write | core/src/store/ParquetEventStore.cpp:97-155 | a refused row latches the store as failed; a finished store takes nothing |
| Publish.ParquetEventStore.Close | core/src/store/ParquetEventStore.cpp:157-226 | publishes the sorted rows whole or leaves the disk as it was, once, whichever of the final flush, the copy and the rename throws |
| Publish.ParquetEventStore.Abandon | core/src/store/ParquetEventStore.cpp:228-243 | nothing of the buffer remains |
| Publish.StepKeeps | core/include/mas/store/AtomicPublish.hpp:98-136 | every step of any racing writer keeps the destination whole |
| Publish.DestinationIsWhole | core/src/store/ParquetEventStore.cpp:157-226 | over every interleaving the destination is its old content or everything one cleanly closed store accepted |
| Publish.CloseIsThreeSteps | core/include/mas/store/AtomicPublish.hpp:98-128 | an undisturbed close is the race's begin, copy and rename, with the class's effect on disk |
| Publish.NothingLeft | core/include/mas/store/AtomicPublish.hpp:129-135 | when every writer has finished, no temp remains |

## Left out

- Codec.ResultRoundTrip: seconds are the printed six-decimal value; what `std::stod` makes of any other text is a parameter, so exponents, hexadecimal and rounding to a double are not modelled.
- Quoting.ArgumentsRoundTrip: arguments are strings without a terminating NUL, as the operating system passes them.
- Publish.DestinationIsWhole: assumes the temp names belong to nobody else; fsync, directories, symlinks and power loss are not modelled.
- Publish.ParquetEventStore.Close: one store alone on the disk; racing writers are the step relation of the same module.
- Worker.CleaningWorker.Run: a results send fails from some frame on or never; heartbeats inside a file are placed between claim and result without an order among writes.
- IdleQuery.QueryIsScan: timestamps are whole numbers and a row's key is unique, as the store keeps it; the final order of `by_head` and the choice of `longest_period` are not modelled.
- MannKendall.Tau: a numerator and a radicand, whose quotient `MannKendall.TauBounded` bounds for the exact real root; floating-point rounding of the root and the quotient is not modelled.
- MannKendall.PValue: as for Tau; `erfc` is left out.
- EndToEnd.CreditedFilesAreMerged: stores that are not written off stay readable; worker ids are not reused; rows are exact when the files agree on shared keys, otherwise the keys are there.
- Coordinator.Dispatcher.Run: the environment is a finite script of inputs followed by silence with an advancing clock.
- Store.CleanTable: torque and status are kept as they are; the narrowing of the two REAL columns to 32-bit floats is not modelled.
- Pool.CleanInto: after a failure the rows of the file already written stay; the contract states the table of a success only, since the program then exits.
- Pool.MultiThread: which writes are refused depends on the file and batch, not on the thread, and a thread's store always opens; the table of a thread's store is updated by the insert-or-ignore function rather than through a store object; removing the per-thread store files is not modelled.
- ZeroMQ sockets, linger and timeouts: replaced by FIFO pipes, a bag of work and sends that may fail.
- The Parquet worker: its clean function opens its own store and not the injected one; failure codes are those of the DuckDB worker.
- DuckDB: every statement is atomic; the appender, rollback and detach are taken to succeed.
- Reading CSV, Parquet and JSON, header checks, and rounding a count cell: rows of integer counts come in ready-made. C++ and Python round halves differently by the code's own note.
- The CUDA engine, benchmark drivers, metrics, plots, command-line flags and log text.
- The planner and narrator, report rendering and the descriptive aggregates.
- The CSV store, the store's identity probe and its metadata table, and the Parquet export guards: they would add only easy members.
