# Models of the benchmark control code

This project models the algorithms and protocols that decide whether a benchmark's numbers can
be trusted: who fetches which block and when a run counts as complete, which runs a resumable
sweep and the queue above it execute, how socket events become phase statistics, and how a
coverage dump and a sampling ring are read back. Each file is one module. Loops and objects of
the programs are methods and classes proved against functions; the laws are lemmas about those
functions and about runs.

`dafny verify dfyconfig.toml` checks everything.

## What is here

- **The block pool** (`BlockPool`, `WorkerClock`, `PoolVerdict`, `Ranges`). Worker x connection
  slots draw block numbers from one atomic counter and meet once at a barrier per worker. A step
  is one atomic action of one slot, so a run is any interleaving. An invariant gives exactly-once
  coverage, freedom from deadlock, a bound on the length of every run and the final counter.
  Two side effects are decided exactly: when the worker start time is stored in every run, and
  what the COMPLETE line means.
- **The AnyBlob tally** (`AnyBlobTally`): callbacks whose counter updates interleave, and a main
  thread that waits for the last of them only.
- **Streaming header scan** (`HeaderScan`), **peak window** (`PeakWindow`).
- **Sweeps, experiments and the queue** (`Worklist`, `Sweeps`, `SweepBuilds`, `SweepKills`,
  `SweepRepeats`, `SweepOrder`, `SweepExamples`, `Experiments`, `ExperimentRuns`,
  `ExperimentKnobs`, `ExperimentPoints`, `Queue`, `QueueRuns`, `QueueOrder`, `QueueLog`,
  `QueueFromAny`, `QueueExact`, `QueueLastPass`, `QueueExamples`). The CSV is a list of rows;
  "done" is the driver's comparison. What a run is started with, in which order runs are started
  and what rows they leave is stated on the experiment's own maps and lists. The interleaved queue
  executes each missing run once, in lexicographic order, although each of its calls asks for all
  reps so far. A CSV may lack a column for a knob: for the sweep, the queue and its last pass the
  laws say exactly when that changes which runs are executed. `SweepKills` takes a sweep apart into its steps, keeps the
  build tree on disk apart from what the process remembers of it, and lets the process be killed
  at every step, any number of times; `SweepRepeats` decides when the kills bound the runs.
- **Queue shutdown** (`QueueShutdown`, `QueueAttempts`): batches of member threads, a stop flag, the deadline and
  the shared table of children, as interleaved steps, up to the return of the group.
- **Socket phases** (`NetPhase`, `NetPhaseLaws`, `NetPhaseLives`, `NetPhaseTrace`,
  `NetPhaseExchanges`, `Histograms`, `SharedStamps`, `FirstSend`). The interposed calls are methods
  of a class over the slot array. An independent reference keeps, per connection, the list of its
  receives and, for all, the log of finished exchanges; every event keeps the two in step, and the
  accounting identities are proved of the log, for each connection by itself and for the sums the
  shim prints. The log, the window and every counter are in turn characterised by the positions
  of sends, receives, connects and closes in the trace.
- **Active time** (`ActiveTime`, `ActiveTies`): the gaps-and-islands query stage by stage, against
  the number of time points some request covers; and what it gives for every pair of orders its
  two windows may take.
- **Coverage dumps** (`CovDecode`, `CovCuts`, `ZeroRuns`, `Base64`) and the **perf ring** (`RingWalk`,
  `RingOverrun`).
- `Sums`, `Folds`, `Options`, `Bytes`, `Modular` hold what the others share.

## Where the code and its comments differ

The models follow the code. Each of these is a lemma below.

- `main.rs:338-343`: a worker's start time is not always stored. The barrier's leader stores it
  only if it holds a block; every run stores it if and only if there is one worker and it has at
  least one block per connection (`WorkerClock.ClockCondition`).
- `main.rs:308-309` says distinct connections read distinct offsets: true exactly while the
  number of blocks is at most stride / gcd(stride, block size) (`Ranges.DistinctOffsets`; in
  `Ranges.OffsetsMeet` the third block reads where the first does).
- `main.rs:850` prints "byte-exact" from sums: one response's surplus hides another's shortfall
  (`PoolVerdict.SurplusMasksShortfall`); it is exact if and only if no response runs over
  (`PoolVerdict.ByteExactness`). The AnyBlob verdict is exact per response.
- "Best second" is the best over each start paired with its first sample a second later. What
  arrives between two samples is ignored if and only if no start at or before it is less than a
  second older than it and at least a second older than the last sample
  (`PeakWindow.BurstMissedIff`), as in `PeakWindow.LastHalfSecond`.
- `runner.py:467-474` says every knob counts. A knob without a column is not compared, so the
  first row that brings the column undoes older rows whose value is not empty
  (`Sweeps.StaysDone`). A sweep, and the queue, executes exactly the missing runs if and only if
  it comes to no such older run behind the first missing one (`Sweeps.SweepExactIff`,
  `QueueExact.EachMissingIff`); inputs where it does are `SweepExamples.SweepUndoes` and
  `QueueExamples.QueueUndoes`. The machine type is not compared off its own axis
  (`Sweeps.OtherInstanceSkipped`); a list of queries off the axis is never recognised
  (`Sweeps.RecognisedAfterwards`).
- `runqueue.py:480` says the pass over whole experiments only plots. It does if and only if, for
  each member, nothing was missing or every run that its first run undid was executed again
  behind it (`QueueLastPass.LastPassIff`); otherwise it starts runs, even where the queue executed
  exactly the missing ones (`QueueExamples.LastPassRuns`).
- A sweep that is killed starts at most the missing runs and one more for each kill, if and only
  if nothing is missing, or all planned runs that are done stay done, or one run is executed and
  it undoes one (`SweepRepeats.StartedIff`); `SweepExamples.MoreThanMissing` starts three for one
  missing run and one kill.
- `netphase.c:113-114`: the first send stored is the first to swap, not the first to read the
  clock. Every interleaving ends with the earliest one if and only if each thread that can win
  has it; a thread can win unless another one's second send comes before its first
  (`FirstSend.EarliestIff`), and two threads that send once both can (`FirstSend.LaterMayWin`).
- `decode.py:20-21` keeps the first payload of an index. Whole first payloads decode whatever
  later snapshots hold (`CovDecode.WholeFirstsDecode`). Where first payloads were cut short by a
  snapshot's end, although a later snapshot has them whole, the decoder does not give back a dump
  in its shortest coding (`CovCuts.CutOutcome`): it may fail (`CovCuts.OneCharacterLost`), and it
  may pass every test and answer with as many wrong bytes and no error (`CovCuts.WrongBytes`).
- `instance.py:250-259` has two windows ordered by start only. The query is the measure of the
  union when both use one order of ties (`ActiveTime.ActiveIsUnion`). For any two orders it is
  never below the union, and equal to it if and only if, past the rows that start first, no row
  that opens an island comes after one of its ties; among the rows that start first this does no
  harm when those before it, or the rest of its island, have no length (`ActiveTies.TieOrders`).

## Assumptions

- Atomics are sequentially consistent steps, and one thread uses a descriptor at a time.
- Time is a natural number; clock readings never decrease along a trace where that is required.
- A bench's rows keep the off-axis query they were asked for (`Faithful`), every call succeeds,
  and different queued experiments write different CSVs. The order of the queue's runs is claimed
  for experiments whose axis values are distinct and hold no comma (`Simple`); that each run
  happens once is claimed for all.
- Where every knob has its column or there are no rows yet, no done run is ever undone
  (`Sweeps.WithColumnsReady`). For such CSVs the laws take their plain form as corollaries:
  `Sweeps.SweepWorksOff`, `SweepBuilds.BuildsPerMissing`, `SweepKills.StartedWhenReady` and
  `RecordedInOrder`, `ExperimentRuns.InvocationWorksOff`, `QueueRuns.EachMissingRunOnce` and
  `LastPassOnlyPlots`, `QueueOrder.LexicographicQueue`.
- The base64 decoder is the default one of Python's standard library, which skips characters
  outside the alphabet and surplus padding.
- In `RingOverrun.CountIsFloor` the records are those of the event the sampler opens: samples of
  16 bytes and notices of 32 with an event number below 2^48. Whether the kernel overwrites
  unread records or drops new ones is left open; the law holds of either.

## Model

| member | source | states |
|---|---|---|
| BlockPool.InitInv | competitors/linux-s3/src/main.rs:658-675 | before any thread steps, no block is in anyone's hands and no barrier has an arrival |
| BlockPool.StepInv | competitors/linux-s3/src/main.rs:702-720 | every atomic action keeps the accounts: numbers handed out are in exactly one slot's hands, and each barrier counts exactly the slots that arrived |
| BlockPool.RunInv | competitors/linux-s3/src/main.rs:696-724 | the invariant holds in every state of every interleaving |
| BlockPool.WorkerProgress | competitors/linux-s3/src/main.rs:335-343 | a worker with an unfinished slot has one that can move: its own barrier never locks it |
| BlockPool.NoDeadlock | competitors/linux-s3/src/main.rs:714-718 | a reachable state is stuck if and only if all slots finished |
| BlockPool.StepDecreases | competitors/linux-s3/src/main.rs:704-713 | every step lowers a measure, so no interleaving runs forever |
| BlockPool.RunLength | competitors/linux-s3/src/main.rs:696-724 | no run has more than 4 x total + 3 x slots steps |
| BlockPool.RunsComplete | competitors/linux-s3/src/main.rs:671-724 | a run that cannot go on fetched each block below the total exactly once, left the counter at total + slots, and opened each barrier exactly once |
| BlockPool.BlocksFetched | competitors/linux-s3/src/main.rs:97-100 | in a run that cannot go on, each block below workers x blocks, or below workers x connections when blocks is 0, was fetched exactly once and no other, and the counter ended at that number plus workers x connections |
| BlockPool.NeverTwice | competitors/linux-s3/src/main.rs:705-712 | at no point of any run is a block in two slots' hands |
| WorkerClock.ClockCondition | competitors/linux-s3/src/main.rs:338-343 | every finished run stores every worker's start time once iff there is one worker and blocks is 0 or at least the number of connections |
| WorkerClock.ClockedWhenEnough | competitors/linux-s3/src/main.rs:341-343 | with one worker and enough blocks the barrier's leader always holds a block |
| WorkerClock.ManyWorkersLose | competitors/linux-s3/src/main.rs:714-718 | with two or more workers some run leaves a worker's start time unset |
| PoolVerdict.VerdictOfRun | competitors/linux-s3/src/main.rs:748-802 | after a finished run the coverage test always passes, and COMPLETE depends only on clean closes and the byte sum |
| PoolVerdict.ByteExactness | competitors/linux-s3/src/main.rs:837-850 | given COMPLETE, each response had exactly the block size iff none had more |
| PoolVerdict.SurplusMasksShortfall | competitors/linux-s3/src/main.rs:837-850 | COMPLETE can be printed although a response is short |
| Ranges.SameOffset | competitors/linux-s3/src/main.rs:308-312 | without 64-bit wrap two blocks start at one offset iff stride / gcd(stride, size) divides their difference |
| Ranges.DistinctOffsets | competitors/linux-s3/src/main.rs:308-311 | the first n blocks have distinct offsets iff n is at most that period |
| Ranges.OffsetsMeet | competitors/linux-s3/src/main.rs:308-312 | of three blocks of 4 bytes in an object of 11, two start at one offset |
| Ranges.DividesProduct | competitors/linux-s3/src/main.rs:310-311 | stride divides d x size iff stride / gcd divides d |
| Ranges.StartsAreMultiples | competitors/linux-s3/src/main.rs:308-312 | without 64-bit wrap every offset is a multiple of gcd(object - block size + 1, block size) and leaves room for a block |
| Ranges.EveryStart | competitors/linux-s3/src/main.rs:308-312 | with gcd 1 every start from 0 to object - block size is some block's |
| Ranges.StartWraps | competitors/linux-s3/src/main.rs:308-312 | the product is taken modulo 2^64, and what is left modulo object - block size + 1, or 1 where a block is larger than the object |
| Ranges.SameBytes | competitors/linux-s3/src/main.rs:308-312 | the inclusive and the half-open range are the same block-size bytes from the block's start, inside the object iff it can hold a block |
| HeaderScan.BodyCounter.CountBody | competitors/linux-s3/src/main.rs:184-204 | after any call the counter is the length of the stream behind its first CRLFCRLF, or 0 |
| HeaderScan.ReadAll | competitors/linux-s3/src/main.rs:417-431 | any way of cutting a stream into reads gives the same body length |
| HeaderScan.TransitionExact | competitors/linux-s3/src/main.rs:190-197 | the automaton's state is always the longest beginning of CRLFCRLF the stream ends with |
| PeakWindow.Peak | competitors/linux-s3/src/main.rs:898-907 | the two-index search returns the maximum over every start and its first sample a second later, moving the inner index at most n times |
| PeakWindow.RateIs | competitors/linux-s3/src/main.rs:898-908 | a rate times the nanoseconds between its samples is eight times the bytes between them |
| PeakWindow.PeakUnique | competitors/anyblob/src/main.cpp:458-463 | there is one such maximum |
| PeakWindow.SpannedIff | competitors/linux-s3/src/main.rs:898-908 | the stretch between two samples lies in a window the search looks at iff some start at or before it is less than a second older than the stretch and at least a second older than the last sample |
| PeakWindow.BurstMissedIff | competitors/linux-s3/src/main.rs:898-908 | the reported peak ignores every burst between two samples iff there is no such start |
| PeakWindow.LastHalfSecond | competitors/linux-s3/src/main.rs:898-908 | with samples at 0, 1 and 1.5 s, whatever the last half second brings leaves the peak as it is |
| AnyBlobTally.StepInv | competitors/anyblob/src/main.cpp:305-335 | every atomic update of a callback keeps each counter equal to the callbacks past that update |
| AnyBlobTally.NeverAhead | competitors/anyblob/src/main.cpp:315-337 | in every interleaving finished is at most ok + failed + bad + short, which is at most the total, so the idle test cannot wrap |
| AnyBlobTally.FinalWhenFull | competitors/anyblob/src/main.cpp:384-384 | once finished reaches the total no counter can change, the classes sum to the total and the bytes are all responses' |
| AnyBlobTally.TalliesExact | competitors/anyblob/src/main.cpp:305-337 | at the full count, whatever the interleaving, the printed counts are those of the responses that failed, had another code than 206, had another size than a block, or were exact, and the bytes are those of all that did not fail |
| AnyBlobTally.VerdictExact | competitors/anyblob/src/main.cpp:471-496 | COMPLETE is printed iff every response succeeded, was 206 and had exactly the block size |
| Worklist.MissingMembers | scripts/bench/runner.py:610-622 | working off a plan executes an entry iff it is in the plan and was not done |
| Worklist.MissingDistinct | scripts/bench/runner.py:610-622 | nothing is executed twice |
| Worklist.KillsAreHarmless | scripts/bench/runner.py:657-680 | sessions killed after any numbers of recorded runs record the same runs in the same order |
| Worklist.MissingIsUndone | scripts/bench/runner.py:610-622 | a plan without repetitions executes what was not done at the start, in plan order |
| Sweeps.Driver.constructor | scripts/bench/runner.py:609-613 | a driver process takes over the CSV and the build tree and remembers no image |
| Sweeps.Driver.Sweep | scripts/bench/runner.py:610-680 | the loop over the plan leaves CSV, image, builds and runs as visiting the entries one by one |
| SweepOrder.PlanAt | scripts/bench/runner.py:576-580 | the plan has values x reps entries; interleaved, entry r x values + i is value i at rep r + 1, otherwise entry i x reps + r is |
| SweepOrder.RunsInOrder | scripts/bench/runner.py:576-622 | on any CSV, of two runs a sweep starts the one of the lower rep, then of the earlier value comes first when interleaved, otherwise of the earlier value, then of the lower rep |
| SweepOrder.AppendRows | scripts/bench/runner.py:657-680 | appending keeps the old rows and adds one row an answer, stamped with axis, value and rep, the knobs over the answer's own columns except a query the answer names; the columns are the old ones and those of the new rows |
| SweepOrder.CsvIsRuns | scripts/bench/runner.py:610-680 | after a sweep the CSV is what it was followed by the stamped answers of the started runs in their order, and no other row |
| Sweeps.AppendToAny | scripts/bench/runner.py:657-680 | on any CSV, appending a run's rows makes it done, leaves done exactly the others that last, and from then on no row undoes any |
| Sweeps.SweepFromAny | scripts/bench/runner.py:610-680 | from any CSV a sweep executes what is missing until its first run, from then on also what that run undid |
| Sweeps.SweepExactIff | scripts/bench/runner.py:467-474 | that is exactly the missing runs iff behind the first of them the plan holds no done run with a non-empty knob that has no column |
| SweepExamples.SweepUndoes | scripts/bench/runner.py:467-474 | a sweep that executes a run again that was done at the start |
| Sweeps.StaysDone | scripts/bench/runner.py:471-473 | a done run stays done iff the knobs the CSV had no column for are empty |
| Sweeps.RecognisedAfterwards | scripts/bench/runner.py:665-666 | on any CSV, a run that was not done is recognised after its rows are appended iff a row kept the off-axis query it was asked for |
| Sweeps.OtherInstanceSkipped | scripts/bench/runner.py:467-474 | on any CSV, the same sweep on another machine type executes nothing iff the first left none of its runs undone |
| SweepBuilds.OneValue | scripts/bench/runner.py:620-626 | on any CSV, all reps of a value share one image, built once iff a rep is missing |
| SweepBuilds.BuildsPerValue | scripts/bench/runner.py:576-626 | on any CSV, a value-major sweep over distinct values builds once for each value of which it executes a run |
| SweepBuilds.BuildsOnce | scripts/bench/runner.py:613-626 | an instance sweep builds once iff it runs anything |
| SweepKills.UndisturbedIsSweep | scripts/bench/runner.py:613-680 | the steps of a process that is not killed are the sweep of its plan |
| SweepKills.EachOnItsImage | scripts/bench/runner.py:613-643 | for every CSV and bench, at any point of any run with any kills, each started run read a whole image of exactly its knobs, and each that is not recorded cost a kill |
| SweepKills.RunInv | scripts/bench/runner.py:609-680 | on any CSV, every step and every kill keeps: the recorded runs are planned, distinct and do not last, the first was missing, and the CSV holds what lasts and what is recorded |
| SweepKills.StartedRuns | scripts/bench/runner.py:613-643 | on any CSV, at most as many runs are started as the plan has that do not last, and one more for each kill |
| SweepKills.RecordedRuns | scripts/bench/runner.py:657-680 | on any CSV, at any point of any run with any kills, each key is recorded at most once, and from the first record on what is done is what lasts and what is recorded |
| SweepKills.NothingStaysMissing | scripts/bench/runner.py:609-680 | on any CSV, a process that gets through the plan leaves every run recorded that was missing |
| SweepRepeats.StartedIff | scripts/bench/runner.py:609-680 | on any CSV, every run with any kills starts at most the missing runs and one more for each kill iff nothing is missing, all planned done runs last, or a single run is executed and undoes a single one |
| SweepExamples.MoreThanMissing | scripts/bench/runner.py:609-680 | a sweep that can start three runs for one missing and one kill |
| Experiments.ListSurvives | scripts/bench/experiment.py:188-188 | joined axis values come back from splitting unchanged iff none holds a comma |
| Experiments.SplitJoin | scripts/bench/runner.py:546-552 | splitting a joined list splits each of its values |
| Experiments.SplitIs | scripts/bench/runner.py:546-552 | the parts of a split list hold no comma, and joined they are the list |
| Experiments.Regroup | scripts/bench/experiment.py:183-188 | the dictionary loop merges points that share every knob but the axis, in order of first appearance |
| Experiments.Run | scripts/bench/experiment.py:142-228 | the filter, the regrouping and the point loop make the invocation's driver calls one after another, and none when the filter matches no point |
| ExperimentRuns.MajorOrder | scripts/bench/runner.py:576-580 | rep-major and value-major plans ask for the same runs |
| ExperimentRuns.InterleavingReorders | scripts/bench/experiment.py:181-188 | regrouping, joining, re-splitting and planning rep-major ask for the same multiset of key, knobs and machine as one value-major call per point |
| ExperimentRuns.InvocationKeys | scripts/bench/experiment.py:190-228 | an invocation asks for a run iff it is a value and rep of one of its points |
| ExperimentKnobs.AskedSettings | scripts/bench/experiment.py:190-216 | each run an invocation asks for is of an axis value of one of its points, with each knob the point's, else the fixed, else the default value, on the point's, else the fixed, else the experiment's machine |
| ExperimentKnobs.StartedSettings | scripts/bench/experiment.py:190-216 | on any CSV and bench, each started run has those knobs and machine, and reads an image built for exactly these knobs |
| ExperimentPoints.ChosenAre | scripts/bench/experiment.py:143-145 | a filter leaves, in their order, the points whose own, else fixed value of the knob, else None, is the wanted one |
| ExperimentPoints.MergedPoints | scripts/bench/experiment.py:183-188 | there is one merged point for each set of points that agree off the axis, in the order in which the sets first appear, with its points' axis values joined in their order |
| ExperimentPoints.CallsAt | scripts/bench/experiment.py:190-216 | the calls are one a point or merged point, in order, with its axis values, the reps asked for and the experiment's interleaving |
| ExperimentPoints.InvokedInOrder | scripts/bench/experiment.py:190-221 | on any CSV, of two runs an invocation starts the one of the earlier call comes first, and within a call the order is the sweep's |
| ExperimentRuns.InvocationFromAny | scripts/bench/experiment.py:190-228 | on a CSV that lacks columns an invocation executes what is missing and what its first run undid |
| Queue.Runner.RunOne | scripts/bench/runqueue.py:271-307 | a successful call invokes one member's experiment on the filtered points and touches no other member |
| Queue.Runner.RunDue | scripts/bench/runqueue.py:441-449 | the due members are called once each, in queue order |
| Queue.Runner.RunGroup | scripts/bench/runqueue.py:405-452 | the nested loops perform the group's schedule |
| Queue.Runner.RunQueue | scripts/bench/runqueue.py:465-482 | all groups one after another, then the pass over whole experiments |
| QueueRuns.ScheduleMembers | scripts/bench/runqueue.py:409-416 | the calls of a group are exactly its members' points and reps |
| QueueExact.EachMissingIff | scripts/bench/runqueue.py:405-452 | from any CSVs the queue executes no run twice, and exactly the missing runs iff for each member it comes to no done run behind the first missing one that this one undoes |
| QueueExact.SlotsLog | scripts/bench/runqueue.py:441-445 | any sequence of queue calls adds to the log, for each member, what that member's CSV makes of the runs asked for |
| QueueFromAny.QueueExactIff | scripts/bench/runqueue.py:405-452 | whatever columns a member's CSV has, the queue executes exactly its missing runs iff behind the first of them it comes to no done run with a non-empty knob that has no column |
| QueueExamples.QueueUndoes | scripts/bench/runqueue.py:405-452 | a queue that executes a run again that was done at the start |
| QueueLastPass.LastPassIff | scripts/bench/runqueue.py:479-482 | from any CSVs the pass over whole experiments starts no run iff for each member nothing was missing or every run its first run undid was executed again behind it |
| QueueLastPass.AllDoneIff | scripts/bench/runqueue.py:479-482 | exactly then all runs the experiments ask for are done when the queue is through |
| QueueExamples.LastPassRuns | scripts/bench/runqueue.py:479-482 | a queue that executes exactly the missing runs and whose last pass starts one |
| QueueOrder.ScheduleIsLexicographic | scripts/bench/runqueue.py:411-416 | each needed call is made once, in strict order of rep, point and member |
| QueueLog.LogInOrder | scripts/bench/runqueue.py:405-452 | on CSVs of any contents, each run in the queue's log is of a point and rep of a member that are due, with the point's knobs, and of two entries the one of the earlier group, rep, point and member comes first |
| QueueOrder.OnePoint | scripts/bench/experiment.py:143-147 | an axis filter leaves its point alone iff no other point has that axis value |
| QueueOrder.OneRunPerCall | scripts/bench/runqueue.py:441-444 | a call for reps 1 to k, earlier reps done, executes rep k alone, or nothing if it is done |
| QueueExact.LexicographicIff | scripts/bench/runqueue.py:465-478 | from any CSVs the runs executed are those not done at the start, none twice, in order of group, rep, point and member, iff for each member it comes to no done run behind the first missing one that this one undoes |
| QueueShutdown.RunInv | scripts/bench/runqueue.py:281-304 | in every interleaving of a batch, whatever earlier batches left, every child that is neither exited nor taken is registered or in the hands of the thread that spawned it |
| QueueShutdown.NoChildLeft | scripts/bench/runqueue.py:418-433 | when all threads of a batch have returned, every child ever spawned exited or was taken by some shutdown |
| QueueShutdown.AtMostOneLate | scripts/bench/runqueue.py:292-300 | in a batch a thread spawns at most one child after the stop or the deadline |
| QueueShutdown.NothingAfterHalt | scripts/bench/runqueue.py:281-285 | a batch that starts after the stop or the deadline spawns no child |
| QueueShutdown.NoChildLeftInGroup | scripts/bench/runqueue.py:405-452 | when a group returns after any number of batches, whenever the stop came, every child ever spawned exited or was taken, and the table is empty |
| QueueShutdown.ShutdownEnds | scripts/bench/runqueue.py:297-300 | after the stop or the deadline the threads make at most six moves each |
| QueueShutdown.CanReturn | scripts/bench/runqueue.py:281-324 | from any state after the stop or the deadline the threads of a batch can all return |
| QueueAttempts.AttemptsMade | scripts/bench/runqueue.py:281-324 | in every interleaving, a thread that returned without a stop or deadline spawned one child and another for each that called for a retry, and the last one had exited |
| QueueAttempts.OneLateEach | scripts/bench/runqueue.py:283-300 | of the children that a batch spawns in steps after the stop or the deadline no two are one thread's |
| QueueAttempts.TakenFromTable | scripts/bench/runqueue.py:297-300 | a child is taken only after the stop or the deadline and only out of the table, together with everything there |
| NetPhase.Shim.constructor | competitors/duckdb-linux/netphase/netphase.c:36-53 | the shim starts with 65536 idle slots and empty counters |
| NetPhase.Shim.CloseExchange | competitors/duckdb-linux/netphase/netphase.c:81-101 | closing in place is the closing of the value model |
| NetPhase.Shim.OnSend | competitors/duckdb-linux/netphase/netphase.c:103-115 | a send in place is the send of the value model |
| NetPhase.Shim.OnRecv | competitors/duckdb-linux/netphase/netphase.c:117-136 | a receive in place is the receive of the value model |
| NetPhase.Shim.Connect | competitors/duckdb-linux/netphase/netphase.c:138-157 | a connect resets its slot and counts the connection |
| NetPhase.Shim.Close | competitors/duckdb-linux/netphase/netphase.c:159-166 | a close ends the exchange and forgets the socket |
| NetPhase.Shim.Fini | competitors/duckdb-linux/netphase/netphase.c:231-253 | the exit hook flushes every open exchange and reports the window; without a connection it leaves everything as it is |
| NetPhaseLaws.CountedIsPlus | competitors/duckdb-linux/netphase/netphase.c:86-97 | an exchange's instants are in order, so no subtraction underflows, and what closing adds is that exchange |
| NetPhaseLaws.StepMatches | competitors/duckdb-linux/netphase/netphase.c:81-166 | every event keeps slots and counters in step with the reference log of exchanges |
| NetPhaseLaws.TraceLaws | competitors/duckdb-linux/netphase/netphase.c:81-166 | along any trace with a monotone clock the log tiles the connections' spans and conserves the bytes |
| NetPhaseLaws.Accounting | competitors/duckdb-linux/netphase/netphase.c:81-136 | the sums over all connections: ttfb + body + gap plus skipped send-to-send time tile the spans from first sends to last accounted instants; received bytes are in req, hs, open slots or lost; both histograms hold the logged durations and sum to n |
| NetPhaseLives.NoteLives | competitors/duckdb-linux/netphase/netphase.c:81-166 | every event keeps each connection's own account, and adds nothing to another's |
| NetPhaseLives.EachConnection | competitors/duckdb-linux/netphase/netphase.c:8-14 | for each connection by itself, its exchanges' turnaround, body and gap and its skipped time fill its own span, and its bytes are in its exchanges, open or lost; every connection opened has one such account |
| NetPhaseLaws.LostOnlyByReconnect | competitors/duckdb-linux/netphase/netphase.c:148-153 | bytes are lost iff a connect hits a slot with bytes of an open exchange |
| NetPhaseLaws.FlushIsClosing | competitors/duckdb-linux/netphase/netphase.c:240-244 | the flush counts what closing every descriptor would count |
| NetPhaseLaws.AtExit | competitors/duckdb-linux/netphase/netphase.c:231-244 | after the flush no time or byte of an open exchange is outstanding |
| NetPhaseLaws.TallyHistograms | competitors/duckdb-linux/netphase/netphase.c:86-93 | each aggregate's histograms are those of its exchanges' durations, and n counts them |
| NetPhaseTrace.StampsAreEnds | competitors/duckdb-linux/netphase/netphase.c:113-135 | from the events alone, with a clock above zero: the stamps are the times of the first send on a connected descriptor and of the last receive behind such a send, zero without one, and conns counts the connects to Internet addresses |
| NetPhaseTrace.WindowReported | competitors/duckdb-linux/netphase/netphase.c:252-253 | the window is the time from that send to that receive, zero where nothing was received |
| NetPhaseTrace.SkippedWhenIdle | competitors/duckdb-linux/netphase/netphase.c:235-244 | the report is skipped iff no connect to an Internet address came, and then the flush would have changed nothing |
| NetPhaseTrace.ConnectionsCounted | competitors/duckdb-linux/netphase/netphase.c:153-153 | the connections reported are those of the history and those of the events |
| NetPhaseExchanges.LogIsEvents | competitors/duckdb-linux/netphase/netphase.c:81-166 | each exchange of the log lies on one connection from the last send before its receives to the send or close that ended it, with ttfb, body, gap, bytes and kind read off those events; the log is in order of the ends, and every event that ends an exchange has its own |
| NetPhaseExchanges.CountersAreEvents | competitors/duckdb-linux/netphase/netphase.c:81-101 | every counter and every millisecond bucket of both aggregates is the sum over those exchanges |
| NetPhaseExchanges.ReportIsEvents | competitors/duckdb-linux/netphase/netphase.c:240-250 | and so are the figures at exit, with every connected descriptor closed |
| Histograms.RecordedTotal | competitors/duckdb-linux/netphase/netphase.c:75-79 | every sample lands in one bucket |
| Histograms.P50 | competitors/duckdb-linux/scripts/instance.py:325-333 | the loop returns the midpoint of the first bucket that reaches half the total, 0 for none |
| Histograms.MedianExact | competitors/duckdb-linux/scripts/instance.py:325-333 | that bucket holds the lower median of the raw samples |
| Histograms.P50Within | competitors/duckdb-linux/scripts/instance.py:325-333 | the figure is within half a millisecond of the lower median, unless that lies in the overflow bucket |
| Histograms.P50Exact | competitors/duckdb-linux/scripts/instance.py:325-333 | the figure is within half a millisecond of a lower median below 511,000,000 ns, and is 511.5 iff the median is not below that |
| SharedStamps.LatestAtQuiescence | competitors/duckdb-linux/netphase/netphase.c:133-135 | the last-receive stamp never decreases and ends as the maximum of all receive times, with spurious failures |
| SharedStamps.FailureMeansProgress | competitors/duckdb-linux/netphase/netphase.c:134-135 | a compare-and-swap that does not fail spuriously stores, or the stamp has grown past what the thread read |
| FirstSend.StampStays | competitors/duckdb-linux/netphase/netphase.c:113-114 | once set, the first-send stamp never changes |
| FirstSend.WinnerCanWin | competitors/duckdb-linux/netphase/netphase.c:109-114 | in every interleaving the stamp ends as the first time of a thread whose first send comes no later than any other thread's second |
| FirstSend.EarliestIff | competitors/duckdb-linux/netphase/netphase.c:109-114 | every interleaving of clock reads and swaps ends with the earliest send iff each such thread has the least first time |
| FirstSend.LaterMayWin | competitors/duckdb-linux/netphase/netphase.c:109-114 | of two threads that send once the later one's time may stay |
| ActiveTime.ActiveIsUnion | competitors/duckdb-linux/scripts/instance.py:250-265 | the islands' extents sum to the measure of the union of the intervals |
| ActiveTime.ActiveBounds | competitors/duckdb-linux/scripts/instance.py:247-265 | active time is at most the window and at most the sum of durations |
| ActiveTime.TieOrderIrrelevant | competitors/duckdb-linux/scripts/instance.py:252-259 | any shared order of ties gives the same active time |
| ActiveTies.TieOrders | competitors/duckdb-linux/scripts/instance.py:250-265 | for any two orders of ties the figure is at least the union, and equal to it iff the second order is harmless |
| ActiveTies.HarmfulOrder | competitors/duckdb-linux/scripts/instance.py:252-259 | two orders of ties that overstate it |
| ZeroRuns.Decode | scripts/cov/decode.py:32-40 | the loop ends and computes the expansion, failing only on a truncated run |
| ZeroRuns.RunDecodes | scripts/cov/decode.py:38-40 | the four bytes behind a zero byte are the number of zeros, the lowest byte first |
| ZeroRuns.DecodeInvertsCode | scripts/cov/decode.py:31-40 | decoding inverts every legal splitting of zero runs |
| ZeroRuns.OnlyCodesDecode | scripts/cov/decode.py:34-40 | whatever decodes is the code of some tokens and decodes to their expansion |
| ZeroRuns.ShortestIff | scripts/cov/decode.py:32-40 | a coding is shortest iff it is as long as the one whose runs are as long as can be |
| ZeroRuns.MaximalIsShortest | scripts/cov/decode.py:32-40 | codings by literals and longest runs are shortest |
| Base64.RoundTrip | scripts/cov/decode.py:31-31 | decoding inverts the encoding of section 4 of RFC 4648 for every byte string |
| Base64.DecodeWithin | scripts/cov/decode.py:31-31 | whatever text decodes, its bytes encode to no more characters |
| Base64.EncodeSpells | scripts/cov/decode.py:31-31 | the encoding spells each three bytes by four characters of the alphabet, six bits each from the highest, and pads a shorter end |
| Base64.NoiseSkipped | scripts/cov/decode.py:31-31 | a character outside the alphabet that is no padding might as well not be there |
| CovDecode.Decode | scripts/cov/decode.py:16-43 | the dictionary loop and the checks give the outcome of the merged dump |
| CovDecode.MergeKeys | scripts/cov/decode.py:19-21 | a line is present after merging iff some log shows it |
| CovDecode.DecodesExactly | scripts/cov/decode.py:17-43 | snapshots that agree decode to the dumped bytes when they cover it, in any order and repetition, and fail otherwise |
| CovDecode.EveryDumpPrints | scripts/cov/decode.py:31-43 | every byte string has lines to print it in |
| CovDecode.MergeFirst | scripts/cov/decode.py:19-21 | the merged payload of a line is the first one over the logs in order |
| CovDecode.FirstIs | scripts/cov/decode.py:19-21 | that is the payload of the entry before which no entry of the log and no earlier log has the index |
| CovDecode.WantIs | scripts/cov/decode.py:22-23 | the size wanted is that of the first BEGIN of the last log that has one |
| CovDecode.StopIs | scripts/cov/decode.py:24-25 | the number of lines is that of the first END of the last log that has one |
| CovDecode.MissingIff | scripts/cov/decode.py:26-30 | given both, lines are missing iff no log shows some line below that number |
| CovDecode.NoDump | scripts/cov/decode.py:26-27 | without a BEGIN or an END anywhere there is no dump |
| CovDecode.TextDecides | scripts/cov/decode.py:31-43 | with all lines there, the joined first payloads fail as base64, or are no code of tokens and end inside a run, or expand to another size than wanted, or are the dump |
| CovDecode.WholeFirstsDecode | scripts/cov/decode.py:19-43 | with the dump's counts and whole first payloads the dump decodes exactly, whatever later entries hold |
| CovCuts.CutOutcome | scripts/cov/decode.py:20-43 | with first payloads cut at most short, a dump in its shortest coding comes back iff every first payload is whole |
| CovCuts.WrongBytes | scripts/cov/decode.py:20-43 | a dump in its shortest coding, shown whole by a second log, that decodes without an error to as many wrong bytes |
| CovCuts.OneCharacterLost | scripts/cov/decode.py:20-31 | a one-line dump whose first payload is one character of the alphabet fails to decode, whatever later logs show |
| RingWalk.PerfRing.SamplerCount | competitors/linux-sample/src/main.c:210-237 | the walk in the ring stores head as the new tail and returns the counts of the record walk |
| RingWalk.PerfRing.ReadHeader | competitors/linux-sample/src/main.c:223-224 | a header is read at the offset within the ring |
| RingWalk.WrittenAreVisited | competitors/linux-sample/src/main.c:222-232 | after writing records that fit, the walk meets exactly those records, each header whole within the ring |
| RingWalk.WalkExact | competitors/linux-sample/src/main.c:218-236 | the counts returned are the true SAMPLE and THROTTLE counts |
| RingOverrun.SuffixCounted | competitors/linux-sample/src/main.c:218-236 | a walk that starts on a record boundary counts exactly the records from there on |
| RingOverrun.HeldCounted | competitors/linux-sample/src/main.c:210-236 | what the ring holds of the records is counted by their first four bytes, 9 for a sample and 5 for a throttle: all of them where they fit, the last where those fill the ring |
| RingOverrun.CountIsFloor | competitors/linux-sample/src/main.c:218-236 | on the sampler's records, wherever the last bytes kept begin, the walk never faults and never counts more samples or throttles than were written |

## Left out

- AWS calls, subprocesses, signals, sleeps, sockets, TLS, CPU pinning, plotting, notifications,
  cost reports, argument parsing and the shell, just and TOML files: I/O or foreign code. A run
  is an oracle that answers with rows.
- Failed, refused and retried runs in the queue's order laws: the queue is failure-free there.
  `QueueShutdown` has the retry loop, the stop flag and the deadline, without CSVs.
- `--keep-going`, `valid` and the early stop of a sweep after an invalid row; the retry loop
  around one run.
- pandas types and NaN formatting, and the knobs' value parsers: all values are the strings the
  comparison uses. Stripping and dropping empty values on the instance axis is not modelled.
- Deploy and prep experiments, and two experiments that share an output path.
- ActiveTime.ActiveIsUnion: no row gives SQL NULL instead of 0, and durations are never negative.
- NetPhaseTrace.StampsAreEnds: a clock that reads zero; `NetPhaseTrace.Stamps` has the stamps for any
  times.
- NetPhase.Shim.OnRecv: the shared stamp is one step here; its compare-and-swap loop is modelled
  in `SharedStamps`. Counters are unbounded except the 32-bit exchange count.
- Sweeps.Driver.Sweep: writing the CSV file is one step with the append.
- QueueExact.LexicographicIff: axis values that repeat or hold a comma.
- SweepKills.RecordedRuns: a kill in the middle of writing the CSV file, which is not written
  atomically.
- WorkerClock.ClockCondition: the leader's store is one step with the barrier's opening.
- Ranges.SameOffset: blocks whose product wraps 64 bits; `StartWraps` and `SameBytes` include them.
- PoolVerdict.VerdictOfRun: byte sums are unbounded.
- PeakWindow.Peak: rates are real numbers, and the counter never decreases, since the code
  subtracts unsigned values.
- AnyBlobTally.StepInv: the first bad code, the first idle time, a worker's last finish and the
  capped error printing.
- CovCuts.CutOutcome: dumps whose coding is not a shortest one.
- RingOverrun.CountIsFloor: lost-record notices and other records this event does not ask for.
- RingWalk.PerfRing.ReadHeader: a header across the ring's edge is a fault of its own instead of
  a read past the buffer, and the kernel's head never lies behind the tail.
- QueueShutdown.NoChildLeft: the descendants of a child and the 90 second grace.
- The setup and dial statistics of `main.rs:269-286`, the steady window and the tail figures.
- Weak memory orders.
