# Verified model of the SNMP collector

This project models the stateful core of the collector — counter deltas, metric assembly, OID
matching, the session pool, the scheduler, the channel pipeline, worker-pool reloads, file rotation,
the Kafka batcher and Active/Standby failover — and proves what the code keeps over every input, every
run or every interleaving. Check everything with `dafny verify dfyconfig.toml`.

## How it is laid out

| file | source | form |
|---|---|---|
| `CounterState.dfy` | `internal/producer/metrics/normalize.go` | a class over the entry map; runs as operation sequences |
| `Build.dfy` | `internal/producer/metrics/poll.go` | methods whose loops pick map keys in any order |
| `Oid.dfy`, `Varbind.dfy`, `WalkRoot.dfy`, `ScalarGet.dfy` | `internal/decoder/varbind.go`, `internal/poller/poller.go` | strings and arcs; methods with the original loops |
| `ConnectionPool.dfy` | `internal/poller/pool.go`, `Poll` in `internal/poller/poller.go` | a class over the pool, refining the steps of any number of polls |
| `Resolve.dfy` | `internal/scheduler/resolve.go`, `internal/config/loader.go` | the nested loops, against recursive specifications |
| `EntryHeap.dfy`, `Scheduler.dfy` | `internal/scheduler/scheduler.go`, queue sizing in `internal/app/app.go` | classes; the sifting of Go's `container/heap` included |
| `PoolSwap.dfy`, `PoolRuns.dfy` | `Reload` and `Stop` in `internal/app/app.go`, `internal/poller/worker.go` | a step machine |
| `Pipeline.dfy`, `PipelineRuns.dfy` | the stages in `internal/app/app.go` | a step machine over bounded channels |
| `RotatingFile.dfy` | `internal/plugin/transport/file/rotate.go` | a class over a directory |
| `KafkaWorker.dfy` | `internal/plugin/transport/kafka/kafka.go` | a class over the reused batch array, refining a step machine |
| `HaManager.dfy` | `internal/ha/ha.go` | a class, refining the standby's part of a step machine of the two nodes |

In the step machines an action names one atomic step of one goroutine (one lock section, channel
operation or message), `Enabled` says when it can happen and `Next` what it does; a run is any
sequence of actions, so a theorem about all runs is a theorem about all interleavings.

## Assumptions

- Samples of one counter key arrive in strictly increasing time and with one syntax (`CounterKey` does
  not contain the syntax, `internal/producer/metrics/normalize.go:15-19`); observed values are at most
  the wrap boundary.
- `Stop` does not overlap a `Reload`, and there is one reloader.
- Every SNMP operation and transport `Send` returns. Each poll returns its session once, and `Close` of
  the session pool is called by one goroutine.
- File operations succeed unless their source is missing.
- Failover claims are about `Manager.state`; the polling callbacks are only reported.
- Times and clocks are integers handed in as parameters; Dial, SNMP requests, value conversion, enum
  lookup, tag rendering and the outcomes of pipeline items are arbitrary.

## What the proofs found

- **Counters.** Emitted deltas never exceed the true growth, and their sum is exact precisely when
  every step is trackable (`CounterState.RunExact`): a Counter64 step must not roll over, a Counter32
  step must stay below 2^32 and either not roll over or be at most 2^31. So 2^31 is the largest
  Counter32 increment that is safe at any position.
- **Failover.** `docs/ha.md` calls the handoff deterministic. It is not: a promotion that a health
  check has decided but not yet applied overtakes an answered `/demote`, leaving both nodes active with
  no failed check in between (`HaManager.PromotionOvertakesDemote`). `SplitBrainCause` lists the only
  causes, and each of them has a run.
- **Rotation.** With a positive `MaxBytes` and a non-zero `MaxBackups`, the kept files are a suffix of
  everything written, over every run, exactly when nothing sits beyond the first free index above
  `MaxBackups` (`RotatingFile.SuffixIffNothingStuck`). A negative `MaxBackups`, which the configuration
  accepts, renames the active file over `.1`.
- **Pipeline.** If the transport leaves through the cancellation case of its retry wait
  (`internal/app/app.go:508-510`), `Stop` returns exactly when the items bound for the formatted channel
  fit into it (`Pipeline.EarlyExitHangsUnlessRoom`); `PipelineRuns.StopCanHang` builds a run in which they do not.
- **Parser.** The attribute table depends on Go's map order exactly when two different attributes share
  a normalised OID (`Varbind.TableDetermined`). Build's suffix trim misses the configured OID for direct
  matches ending in `.0` (`Varbind.BaseOidExact`, `Varbind.BaseOidMisses`), so for a polled scalar exactly
  when its OID is configured with the instance (`ScalarGet.ScalarEnumKey`).
- **Walks.** A walk root that ends in white space, which common arcs can leave, is above none of the
  normalised OIDs that were below it; otherwise the walk covers everything the parser can match
  (`WalkRoot.WalkCovers`).
- **Reload.** The comment at `internal/scheduler/scheduler.go:151-153` says changed intervals take effect
  on the next cycle; in the code every device becomes due at once (`Scheduler.Scheduler.Reload`).

## Model

| member | source | states |
|---|---|---|
| CounterState.CounterTable.Delta | internal/producer/metrics/normalize.go:85-119 | always stores the new sample; reports by the entry stored before it; valid iff there is an earlier one |
| CounterState.CounterTable.Remove | internal/producer/metrics/normalize.go:144-148 | removes one key and nothing else |
| CounterState.CounterTable.Purge | internal/producer/metrics/normalize.go:153-166 | keeps exactly the entries not older than the cutoff, whatever the visiting order, and returns how many went |
| CounterState.StepExact | internal/producer/metrics/normalize.go:96-140 | for both syntaxes and every true increase: the delta never exceeds it and equals it exactly on trackable steps, which are never resets |
| CounterState.StepOtherwise | internal/producer/metrics/normalize.go:96-140 | what untrackable steps report: a flagged 0 iff the observed value fell (Counter32: by at most half the range), else the true increase less whole laps |
| CounterState.HalfRangeIsSharp | internal/producer/metrics/normalize.go:130-140 | a Counter32 increment of 2^31 + 1 across a rollover is always reported as a reset |
| CounterState.SeededRun | internal/producer/metrics/normalize.go:85-140 | from a seeded key, deltas sum to at most the true growth, and to exactly it iff every step is trackable |
| CounterState.RunExact | internal/producer/metrics/normalize.go:85-140 | over a whole run of a new key: first report invalid, sum at most the growth, equal iff all steps trackable, and then no reset |
| CounterState.HalfRangeSuffices | internal/producer/metrics/normalize.go:121-140 | increments of at most 2^31 are always trackable |
| CounterState.Replay | internal/producer/metrics/normalize.go:85-166 | the class driven by any operation sequence reports what the run specification says |
| CounterState.PurgeInvisible | internal/producer/metrics/normalize.go:150-166 | purges within maxAge of a key's last sample, and all traffic on other keys, leave the key's reports unchanged |
| CounterState.PurgeSpares | internal/producer/metrics/normalize.go:157-163 | a purge keeps a key exactly when its sample is at most maxAge old |
| CounterState.BusyTableExact | internal/producer/metrics/normalize.go:85-166 | a live key in a purged, shared table still sums exactly iff its steps are trackable |
| Build.Partition | internal/producer/metrics/poll.go:65-81 | tag and metric varbinds grouped by instance, last tag winning, metric order kept |
| Build.ResolveOverrides | internal/producer/metrics/poll.go:86-94 | per name the winner of the priority rule |
| Build.ResolveAll | internal/producer/metrics/poll.go:83-95 | the winners of every instance, in any visiting order |
| Build.BuildRow | internal/producer/metrics/poll.go:106-161 | one metric as a function of the counter table before the whole call, whose value CounterValue and PlainValue give; only this row's key is reseeded |
| Build.BuildInstance | internal/producer/metrics/poll.go:100-163 | all rows of an instance, in any name order |
| Build.BuildMetrics | internal/producer/metrics/poll.go:59-178 | for every map order: the metrics are, up to order, one fixed set with one metric per row (values: CounterValue, PlainValue), and the final counter table is fixed |
| Build.Confluent | internal/producer/metrics/poll.go:85-163 | two runs from the same table agree on the metrics and the table, and there are as many metrics as rows |
| Build.WinnerMeaning | internal/producer/metrics/poll.go:83-95 | the winner is the earliest varbind of maximal syntax priority |
| Build.PreferredSyntax | internal/producer/metrics/poll.go:83-95 | Counter64 wins over the bandwidth syntaxes from giga down, those and Gauge32 over Counter32, that over the rest; the earliest among equals |
| Build.TagMeaning | internal/producer/metrics/poll.go:72-78 | a tag has the value of the last tag varbind of that name and instance |
| Build.ParsedFromTable | internal/decoder/varbind.go:86-127 | every parsed varbind carries the attribute its OID matches and the OID suffix as instance |
| Build.RowJoin | internal/producer/metrics/poll.go:59-163 | across decoder and producer: a row exists iff a metric varbind was decoded for it, its metric is the earliest best one, its tags the last ones at the same OID suffix |
| Build.CounterValue | internal/producer/metrics/poll.go:116-161 | a counter row is, in numbers: raw - v; raw + 2^32 - v across a plausible Counter32 rollover; 0 without an earlier sample, without elapsed time, or after a reset |
| Build.PlainValue | internal/producer/metrics/poll.go:106-161 | any other row carries its reading, enums resolved for the five enum syntaxes |
| Build.TwoPolls | internal/producer/metrics/poll.go:59-178 | two calls in a row: the second reports the growth between their readings |
| Build.OtherKeys | internal/producer/metrics/poll.go:116-161 | the stored samples of all other keys are untouched |
| Oid.JoinSplit | internal/poller/poller.go:289-302 | joining the arcs of an OID gives it back |
| Oid.NormaliseMeaning | internal/decoder/varbind.go:171-176 | surrounding white space and one leading dot go, nothing else |
| Oid.PrefixUnder | internal/poller/poller.go:289-302 | an arc-prefix, joined, is a dot-bounded prefix |
| Oid.UnderPrefix | internal/poller/poller.go:289-302 | a dot-bounded prefix has an arc-prefix as its arcs |
| Varbind.NewVarbindParser | internal/decoder/varbind.go:58-75 | fails iff there is no attribute or one with an empty OID; else a table some iteration order yields |
| Varbind.TableDetermined | internal/decoder/varbind.go:63-72 | the table is independent of map order iff attributes sharing a normalised OID are equal |
| Varbind.MatchAttribute | internal/decoder/varbind.go:139-169 | the right-to-left scan computes the match specification |
| Varbind.MatchMeaning | internal/decoder/varbind.go:133-169 | found iff a configured OID equals the input or is a dot-bounded prefix; the longest one, and attribute + "." + instance is the input |
| Varbind.BaseOidExact | internal/producer/metrics/poll.go:112-117 | Build's trim recovers the configured OID iff the instance is non-empty (prefix match) or the OID does not end in ".0" (direct match) |
| Varbind.BaseOidMisses | internal/producer/metrics/poll.go:112-117 | a table holding 1.3.6.1.2.1.1.3.0 is looked up at 1.3.6.1.2.1.1.3 |
| Varbind.Parse | internal/decoder/varbind.go:86-127 | decodes in order, skipping error types and unmatched OIDs, up to the first failed conversion |
| Varbind.ParseMeaning | internal/decoder/varbind.go:86-127 | the varbinds returned are those of the matched PDUs before the first failed conversion, each once and in order; success means there was none |
| Varbind.VarbindMeaning | internal/decoder/varbind.go:86-127 | every returned varbind carries a PDU's OID, type and converted value, and the name, syntax and role of the attribute that OID matches |
| ScalarGet.BatchIsUnusable | internal/poller/poller.go:243-255 | true iff every PDU is an error sentinel (so also for none) |
| ScalarGet.AskAlone | internal/poller/poller.go:167-173 | the per-OID fallback collects every single answer, in order |
| ScalarGet.AskBatch | internal/poller/poller.go:147-177 | a batch contributes its answer, or the per-OID answers when it is unusable |
| ScalarGet.DoGet | internal/poller/poller.go:126-180 | for any agent, the contributions of the batches before the first failed one, and success iff none failed; for agents whose batch answers are complete or useless, exactly the per-OID answers whatever the batch limit, cut to a prefix by a failed batch |
| ScalarGet.BatchesCover | internal/poller/poller.go:137-146 | the batches are the OIDs in order, the limit at a time and at the end what is left |
| ScalarGet.ScalarInstance | internal/poller/poller.go:129-132 | the decoder gives a polled scalar instance "0", and its own attribute iff none other sits at that OID |
| ScalarGet.ScalarEnumKey | internal/poller/poller.go:129-132 | the enum key of a polled scalar is its configured OID iff that does not end in ".0" |
| WalkRoot.CollectOids | internal/poller/poller.go:275-280 | exactly the non-empty attribute OIDs |
| WalkRoot.CommonLength | internal/poller/poller.go:292-299 | the length of the longest common arc-prefix |
| WalkRoot.LowestCommonOID | internal/poller/poller.go:274-303 | the greatest common dot-bounded prefix of the OIDs, or empty |
| WalkRoot.RootUnique | internal/poller/poller.go:274-303 | that root is unique, so it does not depend on map order |
| WalkRoot.WalkCovers | internal/poller/poller.go:184-199 | every OID the parser can match lies at or under a non-empty root iff the root does not end in white space or is the only OID |
| ConnectionPool.PopIdleLoop | internal/poller/pool.go:228-248 | the loop computes the popIdle specification |
| ConnectionPool.PopIdleMeaning | internal/poller/pool.go:228-248 | hands out the newest session idle for at most the timeout (none expires without one), closing exactly the newer, expired ones |
| ConnectionPool.ConnectionPool.GetOrCreatePool | internal/poller/pool.go:196-220 | creates a device pool once, with capacity 4 for a non-positive limit |
| ConnectionPool.ConnectionPool.PopIdleSession | internal/poller/pool.go:114-117 | hands out what popIdle finds, closing what it skips |
| ConnectionPool.ConnectionPool.PutSession | internal/poller/pool.go:131-152 | pushes the session, or closes it when the idle list is full |
| ConnectionPool.ConnectionPool.Do | internal/poller/pool.go:95-190 | every atomic section of Get, Put, Discard and Close, run on the pool's fields, is the machine's step |
| ConnectionPool.ConnectionPool.Play | internal/poller/pool.go:95-190 | under any schedule of any number of callers the pool goes through the machine's states |
| ConnectionPool.ConnectionPool.CloseAll | internal/poller/pool.go:168-190 | a second call does nothing; the first is the machine's Close and then one Drain of each device, in some order, and leaves nothing idle |
| ConnectionPool.PoolSafe | internal/poller/pool.go:95-190 | in every interleaving: tokens are the polls between acquire and release and at most the capacity, idle lists bounded, no session in two places, and a dialled session is idle or in use iff it has not been closed |
| ConnectionPool.CloseClosesAll | internal/poller/pool.go:168-190 | closing the pool when all polls have finished closes every session ever dialled |
| ConnectionPool.QuiescentHoldsNothing | internal/poller/poller.go:70-118 | when all polls have finished, by whatever path, no device holds a token |
| ConnectionPool.CapacityFixed | internal/poller/pool.go:196-220 | a device's capacity never changes |
| ConnectionPool.FirstAsks | internal/poller/pool.go:196-220 | in every run that capacity is what the first caller for the device asked for, 4 if that is not positive |
| ConnectionPool.GateShut | internal/poller/pool.go:95-103 | once the pool is closed, no poll not yet past the gate ever gets a session |
| ConnectionPool.ServedWhenOpen | internal/poller/pool.go:95-127 | an open pool with a free token serves an entering poll: with the newest idle session if unexpired, by dialling if none is idle |
| ConnectionPool.SessionReturned | internal/poller/pool.go:131-160 | whichever way a session comes back, pool closed or not, its token is free and it is idle (room permitting) or closed |
| ConnectionPool.SomebodyMoves | internal/poller/pool.go:105-127 | an unfinished poll can step, or another poll of its device that holds a token can |
| Resolve.ResolveDevice | internal/scheduler/resolve.go:36-77 | one device's jobs equal the specification |
| Resolve.EmitGroups | internal/scheduler/resolve.go:51-75 | the object-group loop, unknown groups skipped |
| Resolve.EmitGroup | internal/scheduler/resolve.go:57-74 | the object loop: one job per first occurrence of a defined key |
| Resolve.ResolveJobs | internal/scheduler/resolve.go:20-79 | all jobs, device by device, equal the specification |
| Resolve.JobsExact | internal/scheduler/resolve.go:35-78 | a host has a job for an object iff one of its device groups has an object group with that key and it is defined; the job carries the host's address, version and configuration |
| Resolve.JobsDistinct | internal/scheduler/resolve.go:44-61 | no (host, object) pair occurs twice |
| Resolve.EmitInOrder | internal/scheduler/resolve.go:44-75 | a device's jobs stand in the order in which its groups first name their objects |
| Resolve.WalkInOrder | internal/scheduler/resolve.go:44-57 | the groups are read one after the other |
| Resolve.ResolveNeededObjects | internal/config/loader.go:347-371 | exactly the keys some device reaches, in any visiting order |
| Resolve.NeededExactly | internal/config/loader.go:347-371 | needed are the keys some device reaches through its device and object groups |
| Resolve.LoadFile | internal/config/loader.go:400-406 | one file's kept definitions override the earlier ones |
| Resolve.LoadObjectDefs | internal/config/loader.go:377-417 | the merged definitions, filtered unless the needed set is empty |
| Resolve.LoadMeaning | internal/config/loader.go:377-417 | a definition is loaded iff some file has it and it is needed (or the needed set is empty), and it is the last such file's |
| Resolve.FilterPreservesJobs | internal/config/loader.go:120-124 | loading only needed objects changes no job and no position |
| Resolve.JobsByHostname | internal/scheduler/resolve.go:82-88 | each host's jobs in order, no empty group |
| Resolve.JobsOfExact | internal/scheduler/resolve.go:82-88 | a host's group is exactly its jobs in their order |
| Resolve.GroupingConserves | internal/scheduler/resolve.go:82-88 | the groups hold every job exactly once |
| EntryHeap.Heap.Down | internal/scheduler/scheduler.go:39-53 | sifting down restores heap order from that index on, permuting only the first n entries |
| EntryHeap.Heap.Up | internal/scheduler/scheduler.go:39-53 | sifting up restores heap order and permutes |
| EntryHeap.Heap.Init | internal/scheduler/scheduler.go:214-214 | makes any slice a heap with the same entries |
| EntryHeap.Heap.Push | internal/scheduler/scheduler.go:131-131 | adds one entry, keeping heap order |
| EntryHeap.Heap.Pop | internal/scheduler/scheduler.go:128-128 | removes an entry of least nextRun, keeping heap order |
| EntryHeap.RootIsLeast | internal/scheduler/scheduler.go:105-106 | the entry at index 0 is the next to fire |
| Scheduler.JobQueue.TrySubmit | internal/poller/worker.go:65-72 | never blocks; the job joins the end of the queue unless it is full, whatever the workers took before |
| Scheduler.Scheduler.FireEntry | internal/scheduler/scheduler.go:220-235 | offers each job once, in order; every job is accepted or counted as dropped |
| Scheduler.Scheduler.FireNext | internal/scheduler/scheduler.go:127-132 | pops a least entry, fires it, pushes it back at now + interval |
| Scheduler.Scheduler.Pass | internal/scheduler/scheduler.go:122-133 | terminates and fires exactly the due entries, each once and in nondecreasing nextRun order, rearms them and no others, and restores the heap |
| Scheduler.Scheduler.SetPool | internal/scheduler/scheduler.go:145-149 | swaps the queue and keeps everything else |
| Scheduler.Scheduler.Reload | internal/scheduler/scheduler.go:154-160 | replaces the timers by those of the new jobs, all due at once |
| Scheduler.FreshTimer | internal/scheduler/scheduler.go:193-213 | exactly the hosts with jobs have a timer: due at once, at the interval configured on the first job, holding the host's jobs |
| Scheduler.ReloadPollsAll | internal/scheduler/scheduler.go:154-160 | the first pass after a reload, whenever it comes, offers every job of the new configuration |
| Scheduler.Passes | internal/scheduler/scheduler.go:92-134 | a run of passes follows the timer specification and accounts for every fired job |
| Scheduler.OwnTimer | internal/scheduler/scheduler.go:122-133 | a host fires in a pass iff its interval has elapsed since its last fire (at first: its start time has come) |
| Scheduler.Independent | internal/scheduler/scheduler.go:122-133 | a host's timer evolves as if it were alone |
| Scheduler.IntervalOf | internal/scheduler/scheduler.go:203-206 | always positive, the seconds given where they fit 64-bit nanoseconds, 60 s for zero |
| Scheduler.BuildUnordered | internal/scheduler/scheduler.go:199-213 | one entry per host, in any visiting order |
| Scheduler.BuildEntries | internal/scheduler/scheduler.go:193-216 | a heap with one due entry per host holding exactly its jobs; job counts sum to the number of jobs |
| Scheduler.Start | internal/app/app.go:247-254 | the queue size is the configured one, or the larger of the jobs and twice the workers, so at least the entries' total of jobs |
| Scheduler.PassFromEmpty | internal/app/app.go:247-252 | with that size, a pass that finds the queue empty drops nothing, in any run |
| PoolSwap.Step | internal/app/app.go:307-385 | every step keeps the closing discipline of the job and raw channels and each pool's accounts: offered is accepted plus refused, accepted is queued, polled, sent, empty or lost |
| PoolRuns.ReloadSafe | internal/app/app.go:346-385 | over any run: no TrySubmit on a closed channel, no channel closed twice, and for a pool stopped without cancellation every accepted job has had its result sent or failed without one |
| PoolRuns.SubmitExact | internal/poller/worker.go:65-72 | at any moment of any run TrySubmit offers the pass's next job to the scheduler's pool alone: with room it joins the end of the queue, and only a full queue refuses it |
| PoolRuns.JobServed | internal/poller/worker.go:75-113 | the job longest in the queue is taken and polled, and its result goes to the raw channel or there is none |
| PoolRuns.ReloadReturns | internal/app/app.go:346-385 | from every reachable idle state a Reload can be carried through: new pool owned and in use, old one's Stop returned |
| PoolRuns.StopReturns | internal/app/app.go:303-328 | from every reachable idle state a Stop can be carried through to the closed raw channel, with every worker gone |
| PoolRuns.CancelFrees | internal/poller/worker.go:103-111 | after cancellation all workers not in a poll can leave without the raw channel, the queue left alone |
| PoolRuns.RawSafe | internal/app/app.go:316-328 | over any run: when the raw channel is closed, once, all workers of all pools have gone, so none sends on it closed |
| PoolRuns.DrainMoves | internal/poller/worker.go:75-113 | while Reload or Stop waits for a pool, one of its workers can step or, the raw channel being full, the decode stage can |
| PoolRuns.DrainEnds | internal/poller/worker.go:75-113 | from there, at most a computed number of such steps lets that pool's Stop return |
| Pipeline.LifecycleStep | internal/app/app.go:394-533 | every step keeps: channels closed only after their writers have gone, workers gone only after their input is closed and empty, or for the transport by its early exit |
| Pipeline.RulesStep | internal/app/app.go:402-490 | items past a stage satisfy its rule, dropped items fail one; WhatGoesOn and DeliveredExactly give the rules |
| Pipeline.BalanceStep | internal/app/app.go:394-533 | per item: fed equals in flight plus dropped plus delivered plus lost by an early exit |
| Pipeline.PipelineSafe | internal/app/app.go:387-533 | for all worker counts, capacities and interleavings: no stage sends on a closed channel (the pollers' sends are RawSafe), no double close, and at exit exactly the surviving items have been sent, less what an early exit of the transport lost or left behind |
| Pipeline.WhatGoesOn | internal/app/app.go:402-490 | in every reachable state: past decoding only items with varbinds or from a failed poll decoded without error, past producing only error-free ones with metrics or from a failed poll, past formatting none with a format error |
| Pipeline.DeliveredExactly | internal/app/app.go:402-533 | at exit, in item fields: partial decode results are delivered as often as fed, empty ones only for failed polls, nothing with a produce or format error or too many failed Sends |
| PipelineRuns.AllThrough | internal/app/app.go:387-533 | from any start any sequence of poll results can be fed and worked off until every goroutine has exited |
| PipelineRuns.RetryLoop | internal/app/app.go:502-529 | the transport makes one Send more than fail, or than the retry limit, and then delivers or drops |
| PipelineRuns.QueueStep | internal/app/app.go:394-533 | every step treats every channel as a bounded queue: only its head leaves, only its end grows |
| PipelineRuns.RawFills | internal/app/app.go:394-411 | the open raw channel takes items up to its size with nobody reading |
| Pipeline.NeverStuck | internal/app/app.go:295-344 | once the raw channel is closed, some goroutine can step until all have exited, unless the transport left early with more bound for the formatted channel than fits |
| Pipeline.KeepsMoving | internal/app/app.go:394-533 | raw channel open or not: while a channel holds an item or a worker is sending, one of the pipeline's own goroutines can step |
| Pipeline.LiveDrains | internal/app/app.go:394-533 | a bounded number of such steps empties every channel, so a poller blocked on the raw channel gets room |
| Pipeline.StepsTowardsEnd | internal/app/app.go:394-533 | every step but feeding lowers a measure |
| Pipeline.StopReturns | internal/app/app.go:325-331 | after the raw channel is closed every run is bounded, and one that cannot go on has all goroutines gone, unless the transport left early and the items bound for the formatted channel do not fit |
| Pipeline.AbandonOrphans | internal/app/app.go:506-511 | once the transport leaves during a retry wait, nobody reads the formatted channel and nothing more is delivered, in any run |
| Pipeline.EarlyExitHangsUnlessRoom | internal/app/app.go:499-533 | after that, the goroutines can finish iff the items bound for the formatted channel fit into it |
| PipelineRuns.StopCanHang | internal/app/app.go:499-533 | for every positive retry limit a run from Start reaches a Stop that no interleaving lets return |
| RotatingFile.RotatingFile.Rename | internal/plugin/transport/file/rotate.go:160-169 | moves a file if it exists, recording whether it hit another |
| RotatingFile.RotatingFile.FindMaxBackup | internal/plugin/transport/file/rotate.go:184-195 | the last index before the first free one |
| RotatingFile.RotatingFile.ShiftUp | internal/plugin/transport/file/rotate.go:160-164 | moves every backup up by one, overwriting nothing |
| RotatingFile.RotatingFile.Prune | internal/plugin/transport/file/rotate.go:198-207 | removes the contiguous backups above the limit |
| RotatingFile.RotatingFile.Rotate | internal/plugin/transport/file/rotate.go:136-181 | the whole directory afterwards; a rename overwrites a file only for a negative limit with a ".1" present |
| RotatingFile.RotationMeaning | internal/plugin/transport/file/rotate.go:128-181 | the directory after a rotation index by index, for a positive, zero and negative limit |
| RotatingFile.RotatingFile.Write | internal/plugin/transport/file/rotate.go:80-95 | appends without rotating iff there is no limit or the active file and p fit into it; else p alone is the active file and the older ones, up to MaxBackups, are one index up; size is the active length |
| RotatingFile.WriteMany | internal/plugin/transport/file/rotate.go:80-95 | a run of writes follows the directory specification and overwrites no file |
| RotatingFile.FittingRun | internal/plugin/transport/file/rotate.go:80-95 | writes that fit into the limit together only lengthen the active file and leave every backup alone |
| RotatingFile.RotationLoses | internal/plugin/transport/file/rotate.go:128-181 | a rotation loses exactly the contents between the limit and the first free index |
| RotatingFile.NothingLost | internal/plugin/transport/file/rotate.go:155-164 | without a limit (or without rotation) the files always hold everything, gaps or not |
| RotatingFile.SuffixKept | internal/plugin/transport/file/rotate.go:136-181 | with a limit and nothing stuck, the files always hold a suffix of everything |
| RotatingFile.SuffixIffNothingStuck | internal/plugin/transport/file/rotate.go:136-207 | that holds over all runs iff nothing is stuck beyond the first free index above the limit |
| RotatingFile.BackupsBounded | internal/plugin/transport/file/rotate.go:147-174 | never more than MaxBackups backups if none started above that index |
| KafkaWorker.Worker.Append | internal/plugin/transport/kafka/kafka.go:312-313 | Go's append on the reused array adds one message to the batch |
| KafkaWorker.Worker.Flush | internal/plugin/transport/kafka/kafka.go:314-323 | sends a non-empty batch and empties it in place |
| KafkaWorker.Worker.Do | internal/plugin/transport/kafka/kafka.go:300-342 | every select case of the worker, Send and Close is the model's step |
| KafkaWorker.Worker.Play | internal/plugin/transport/kafka/kafka.go:300-342 | the worker over the reused array follows the step machine on every run |
| KafkaWorker.Conservation | internal/plugin/transport/kafka/kafka.go:246-342 | at every moment flushed, batch and channel together are the accepted messages in order; flushes before exit hold 1 to MaxEvents; at exit everything is flushed iff nothing was sent later |
| KafkaWorker.EverythingFlushed | internal/plugin/transport/kafka/kafka.go:263-283 | if Close follows all Sends, exit means everything flushed once and in order |
| KafkaWorker.TickFlushesAll | internal/plugin/transport/kafka/kafka.go:314-319 | after every tick all the worker has received has been flushed |
| KafkaWorker.FullBatches | internal/plugin/transport/kafka/kafka.go:307-339 | without ticks every flush but the one at exit is a full batch, and a full batch never waits |
| KafkaWorker.CloseReturns | internal/plugin/transport/kafka/kafka.go:263-339 | after Close the worker can empty the channel and exit with one more flush at most, everything accepted flushed in order |
| KafkaWorker.SendsAccepted | internal/plugin/transport/kafka/kafka.go:246-258 | messages are taken in, in order, as long as the channel has room |
| KafkaWorker.ShutdownProgress | internal/plugin/transport/kafka/kafka.go:324-339 | after Close the worker always has a step, and draining shrinks the channel |
| HaManager.Manager.TransitionTo | internal/ha/ha.go:429-456 | the new state and exactly when which callback fires |
| HaManager.Manager.DigestResponse | internal/ha/ha.go:356-416 | counter and promotion decision for every response, against the threshold as configured (0 stands for 3) |
| HaManager.Manager.DemoteHandler | internal/ha/ha.go:218-231 | a POST ends in Standby with 200, stopping polling iff it was Active; any other method gets 405 and changes nothing |
| HaManager.Manager.Do | internal/ha/ha.go:356-416 | the standby's steps, run on the manager and its loop variables, are the machine's |
| HaManager.Play | internal/ha/ha.go:218-417 | under any schedule of both nodes the living standby's manager is in the machine's state |
| HaManager.CounterExact | internal/ha/ha.go:344-417 | the counter is the trailing failures modulo the threshold (the configured one; 3 for 0, 1 if negative); a check decides to promote iff it fails, had read Standby and completes a multiple of it |
| HaManager.CheckOrigin | internal/ha/ha.go:344-417 | in every run a check saw the state at its beginning, and a decided promotion goes back to a check begun in Standby |
| HaManager.CounterRun | internal/ha/ha.go:344-417 | the same as CounterExact in events of the run: failed checks since the last success or start, and the state when the check began |
| HaManager.ActiveByPromotion | internal/ha/ha.go:218-231 | the standby node is active only if no demote, start or crash has come after its last promotion |
| HaManager.SplitBrainCause | internal/ha/ha.go:242-262 | two active nodes imply an unanswered demote, a promotion already decided when it was handled, or at least threshold minus counter failures since |
| HaManager.SplitBrainRun | internal/ha/ha.go:242-262 | the causes as events of the run, without the model's bookkeeping |
| HaManager.PromotionOvertakesDemote | internal/ha/ha.go:404-410 | for every threshold a run with both active, the demote answered and no failure since |
| HaManager.UnansweredDemote | internal/ha/ha.go:242-262 | for every threshold a run with both active after a lost demote |
| HaManager.BoundIsSharp | internal/ha/ha.go:344-417 | for every counter value the bound on failures is attained |
| HaManager.FreshStart | internal/ha/ha.go:242-262 | from any state both nodes can crash and the standby start over with nothing carried on |

## Left out

- gosnmp sessions, SNMPv3 mapping and the Get/Walk/BulkWalk requests: foreign calls, arbitrary outcomes here.
- sarama configuration, TLS, SASL, delivery errors of a flushed batch: SendMessages is a sink.
- YAML decoding, directory walking, environment variables, flags, logging and HTTP servers: I/O.
- ConvertValue's unit table, PDUTypeString, classifyError, tagValue and the enum registry: case tables, given as functions.
- resolveDevice and the withDefaults functions other than the failover threshold and the queue size.
- JSON formatting: an item either formats or does not.
- TrimSpace on characters beyond the Latin-1 white space.
- Sizes near the 64-bit limit: file sizes and clock arithmetic are unbounded integers; only counters and poll intervals wrap.
- Concurrent first calls of ConnectionPool.Close, which would close its channel twice.
- Polling callbacks still running when a second /demote is answered: claims are about Manager.state.
- Scheduler.JobQueue.TrySubmit: workers only take jobs between submissions; closing the queue is in PoolSwap.
- Sort order of hostnames: ResolveJobs is proved for every enumeration of the devices.
