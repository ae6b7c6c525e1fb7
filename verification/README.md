# Models and proofs for the distributed systems labs

This project models five parts of the repository and proves what they are for. Code that changes fields step by
step is modelled as classes and methods with loops; what a method does is stated with a function of the old state,
and the properties of whole runs are proved about those same functions. Concurrency and the network are state
machines: a step is one locked section, one message, or one loss, and the theorems hold for every sequence of steps.

## The components

**MapReduce** (`KeyValues`, `PartitionFile`, `OutputFile`, `Shuffle`, `Coordinator`, `MrSequential`, `MrWorker`,
`MapReduce`, `MapReduceInv`, `MapReduceData`, `MapReduceFiles`, `MapReduceRuns`, `MapReduceErrors`,
`MapReduceEquivalence`, `MapReduceProgress`, `LateWriter`). The coordinator grants tasks, absorbs reports, times tasks out, skips them
after too many retries, and shuffles once. Workers may stop or stall anywhere; replies and reports may be lost.
`mapf` and `reducef` are arbitrary functions, a sort is any sorted rearrangement, and maps are enumerated in any
order. Whatever happens, results are gathered exactly once. Tasks are granted a bounded number of times, unless a
task is skipped and a worker's late error report brings it back. A run without skips can always be finished by a new
worker, and one worker alone computes what the sequential program does.

A run that skips no task ends with the lines of the sequential program exactly when every output file has one line
for each key of its partition and no hole. That can fail: `executeReducef` creates its output file in place and
writes it line by line, so a worker that was given up can truncate a file that another worker has completed, or is
still writing at its own offset. `LateWriter` gives a run of each kind. No line is lost when the last worker to
create each file has also closed it.

**Key/value server, clerk and lock** (`KvServer`, `KvModel`, `Clerk`, `Linearizability`, `KvPartition`, `PutCounts`,
`Appends`, `Lock`, `LockProtocol`). The server's conditional put is modelled as written. A clerk call is a sequence
of attempts; each attempt's request or reply may be lost. Linearizability is proved against the sequential
specification, with the versions of Gets checked as well. The specification has no answer for ErrNoKey to a Put, so
acceptance is an if-and-only-if. The lock is proved on a harsher network, where a request may run late and any
number of times; a free lock can always be taken, and a held one released. The concurrent put and append tests are proved to accept every run.

**Shard rebalancer** (`ShardLoads`, `Rebalance`, `ShardConfig`). A greedy allocator over an array in place, for any
number of shards below 257. The result of `Rebalance` is a function of the assignment and the groups, so map order
cannot matter; it is balanced, moves the fewest possible shards, and joins and leaves are local.

**Raft log repair** (`RaftLog`, `RaftRepair`). The append handler and the leader's back-off in one term. Agreement of
the logs where index and term agree does not make a rejection go back: `LogMatchingIsNotEnough` has the logs, in
which one term starts at different indexes. Two leaders of one term can make such logs, and the code allows two: a
candidate does not vote for itself, and an append of the current term clears the vote of its receiver
(src/raft1/raft.go:278-279, 463-472, 624-629), which may then vote for another candidate of that term.
`BackOffIsExact` says exactly for which logs every rejection goes back, and that condition is the hypothesis of the
repair theorems; under it the repair can always be completed. With one leader's log per term, as Raft intends, it holds: `OneLeaderPerTerm`.

**RPC multiplexer** (`Demux`, `DemuxProtocol`). Tags, a closable table of calls, a reader that delivers replies and
then fails what is left, and a server that answers in any order. Calls may register while the reader runs. A call
returns exactly what was delivered to it, and the error only after a failed read.

`Texts` holds strings byte by byte and their order, `Options` and `Choice` the optional value and facts about sets and
sequences.

## Assumptions

- MapReduce: worker ids are distinct and not negative, there is at least one reducer, input files do
  not change while the job runs, and a report whose call failed is not executed later. For the equivalence:
  `mapf` emits keys and values without spaces and newlines, and `reducef` ignores the order of its values.
- Lock: ids are distinct and not empty, and only the locks write the key. Versions do not wrap.
- Raft: at the election both logs start with the same entry at index 0, have terms that never fall, match, and are
  aligned; the term of the leader is new to both.
- Multiplexer: no call registers under a tag that is still registered, as when there are at most 2^32 calls.

## Model

| member | source | states |
|---|---|---|
| `MapReduceEquivalence.DistributedIsSequential` | src/mr/coordinator.go:37-100 | For every interleaving of grants, lost replies, reports, timeouts, line-by-line writes, stalled and crashed workers in which no task is skipped: once Done returns true every input file was readable, and the lines of all reduce outputs are as a multiset those of the sequential program if and only if every reduce output file has no hole and one line for each key of its partition |
| `MapReduceEquivalence.ClosedRunIsSequential` | src/mr/worker.go:195-214 | The same equality holds outright whenever the last worker to create each output file has also closed it, whoever else has the file open or crashed while filling it |
| `MapReduceEquivalence.QuietRunIsSequential` | src/mr/worker.go:178-218 | In particular when no worker is between creating and closing an output file |
| `LateWriter.LateWriterLosesOutput` | src/mr/worker.go:195-214 | Without that condition the equality fails: a concrete 14-step run without skips or errors in which Done returns true and a late worker has truncated the only output file |
| `LateWriter.OverlapLeavesHole` | src/mr/worker.go:195-214 | It also fails when the file is created again while it is written: the worker that completes the task goes on at its own offset, closes the file and reports, and the file keeps a hole |
| `MapReduceEquivalence.DoneMeansShuffled` | src/mr/coordinator.go:86-100 | When Done returns true in a run without skips, what was shuffled is mapf of all files, each counted once |
| `MapReduceEquivalence.TruncatedFileLacksLine` | src/mr/worker.go:195-213 | While the output file of a non-empty partition is missing, short or has a hole, the outputs together differ from the sequential lines |
| `MapReduceEquivalence.RunIsWhole` | src/mr/coordinator.go:173-191 | In a run without skips the reduce phase starts only after every map task completed, and starts as soon as the last report is absorbed |
| `MapReduceEquivalence.RunKeepsData` | src/mr/coordinator.go:193-221 | In every run, with skips and errors, each partition file is the text of its partition of the shuffled list; each output file holds only lines of the reduction of its partition, in their places; and the last worker to create it has filled it as far as it has got |
| `MapReduceFiles.StepProduces` | src/mr/worker.go:195-214 | Creating, writing and closing an output file keep that, whoever else writes the same file |
| `MapReduceEquivalence.ClosedFileIsWhole` | src/mr/worker.go:195-214 | A file whose last creator has closed it has no hole and one line for each key |
| `OutputFile.WholeIsSlots` | src/mr/worker.go:195-213 | A file that holds only lines of a reduction in their places is all of it exactly when it has no hole and one line for each key |
| `OutputFile.WriteHoldsOnly` | src/mr/worker.go:209-210 | A write at the position of one of several writers with the same lines keeps what the others have written and adds its own |
| `MapReduceRuns.ExactlyOnce` | src/mr/coordinator.go:63-79 | In every reachable state before the reduce tasks exist the gathered results are as a multiset the sum of mapf over exactly the completed map tasks; a report for a completed task, or for one now assigned to somebody else, adds nothing |
| `MapReduceData.LateReportAddsNothing` | src/mr/coordinator.go:67-77 | A report in flight for a completed task changes nothing at all; for a task assigned to another worker it adds no results |
| `MapReduceRuns.CompletedForever` | src/mr/coordinator.go:63-100 | A completed task is never changed again in the rest of the run |
| `MapReduceRuns.UnassignedTasks` | src/mr/coordinator.go:237-252 | In every reachable state a task has worker -1 exactly when it is not started or skipped |
| `MapReduceRuns.AtMostTwelveGrants` | src/mr/coordinator.go:41-56 | Without worker error reports every task is granted at most 12 times, and all grants together are at most 12 times the number of tasks |
| `MapReduceRuns.GrantsAccounted` | src/mr/coordinator.go:237-252 | Without error reports the grants of a task are exactly its retries, plus one if it is beyond not started |
| `MapReduce.LostReportIsForgotten` | src/mr/worker.go:75-81 | A lost report leaves the coordinator as it was, and the worker asks for another task |
| `MapReduceErrors.GrantsWithErrors` | src/mr/coordinator.go:41-56 | With error reports, while no task is skipped, every task is granted at most 4095 times, and all grants together are at most that times the number of tasks |
| `MapReduceErrors.NoBoundWithSkips` | src/mr/coordinator.go:63-100 | With errors and skips there is no bound: for every number a run in which one task is skipped and revived by late error reports until it has been granted that often, while Done never returns true |
| `MapReduceProgress.JobCanFinish` | src/mr/coordinator.go:37-100 | From the end of every run without skips, whatever was lost and whoever crashed or stalls, a new worker can bring the job to an end at which Done returns true and nothing is skipped, as long as no task in progress has more than ten retries |
| `MapReduceProgress.OneWorkerFinishes` | src/mr/worker.go:53-81 | One worker alone completes every job whose files can be read and have names, and its outputs are together the lines of the sequential program |
| `MapReduceInv.StepKeepsControl` | src/mr/coordinator.go:37-82 | Every step keeps the shape of the task list, the worker marks, and the link between each worker and its task: while the task is still assigned to the worker it is in progress with the retries the worker was told |
| `MapReduce.SweepIsDone` | src/mr/coordinator.go:86-100 | Done returns true exactly when no task is left unfinished after skipping and timing out, although it stops at the first unfinished one |
| `MapReduce.SweepMeaning` | src/mr/coordinator.go:86-100 | A call of Done skips or hands out again what it looks at, up to the first task that is unfinished afterwards, and leaves the rest |
| `MapReduce.LostReplyLeavesTask` | src/mr/coordinator.go:41-58 | When the reply to a request is lost the task is assigned although the worker knows nothing of it |
| `Coordinator.Coordinator.RequestTask` | src/mr/coordinator.go:37-61 | The reply is none exactly when no task is not started and unassigned; otherwise it is the first such task, now in progress and assigned to the asking worker, and nothing else changes |
| `Coordinator.GrantMeaning` | src/mr/coordinator.go:41-58 | The same of the grant that the runs use |
| `Coordinator.Coordinator.UpdateTaskStatus` | src/mr/coordinator.go:63-82 | The report reaches the first task with its id and worker, if any; then the reduce tasks are generated if all map tasks are finished and it has not happened before, from some sorted order of the results |
| `Coordinator.AbsorbMeaning` | src/mr/coordinator.go:67-77 | A report adds its pairs and sets status, write location and retries of the first task with its id and worker; without such a task it changes nothing |
| `Coordinator.GenerateMeaning` | src/mr/coordinator.go:173-191 | The reduce phase begins exactly once, as soon as every map task is completed or skipped, with a task and a file for each partition and empty results |
| `MrWorker.ReportMeaning` | src/mr/worker.go:75-79 | While a task is assigned to the worker that was granted it, a success completes it and a failure changes nothing; once it has been given up, a success changes nothing and a failure keeps it ready with one retry more |
| `Coordinator.Coordinator.IsAllMappingDone` | src/mr/coordinator.go:175-181 | True exactly when every map task is completed or skipped |
| `Coordinator.Coordinator.GenerateReduceTasksIfApplicable` | src/mr/coordinator.go:173-191 | One-shot: nothing changes if the reduce tasks exist or a map task is unfinished |
| `Coordinator.Coordinator.GenerateReduceTasks` | src/mr/coordinator.go:182-189 | Appends one reduce task for each non-empty partition of a sorted rearrangement of the results, in any order, and writes each partition to its file; the results keep their length and lose their contents |
| `Coordinator.Coordinator.ShuffleResults` | src/mr/coordinator.go:193-208 | Sorts the results in place into a rearrangement and partitions them |
| `Coordinator.Coordinator.InitializeReduceTasks` | src/mr/coordinator.go:152-165 | One task and one file per partition, in the order in which the map is enumerated |
| `Coordinator.Coordinator.Done` | src/mr/coordinator.go:86-100 | The new task list and the result are those of the sweep |
| `Coordinator.Coordinator.SetSkippedIfApplicable` | src/mr/coordinator.go:237-243 | Skips a task in progress with more than ten retries and touches no other |
| `Coordinator.Coordinator.SetNotStartedIfApplicable` | src/mr/coordinator.go:245-252 | Hands out again a task in progress that timed out, counting a retry, and touches no other |
| `Coordinator.Coordinator.constructor` | src/mr/coordinator.go:143-171 | One map task per input file, none started |
| `Shuffle.Partition` | src/mr/coordinator.go:196-207 | The map holds exactly the non-empty partitions, each with its pairs in order |
| `Shuffle.EachPairInOnePart` | src/mr/coordinator.go:197-205 | Every pair is in exactly the partition of its key, as often as it occurs in the list, and in no other |
| `Shuffle.PartKeys` | src/mr/worker.go:30-34 | A key is in exactly one partition, which holds all its values in order |
| `Shuffle.XorIsBitwise` | src/mr/worker.go:30-34 | The exclusive or of the hash, bit by bit |
| `Shuffle.HashVectors` | src/mr/worker.go:30-34 | Two published values of FNV-1a with 32 bits, and the partition of a key |
| `Shuffle.PartitionedReduction` | src/mr/worker.go:193-213 | Reducing the partitions one by one gives, all together, exactly the lines of reducing the whole list |
| `PartitionFile.Store` | src/mr/coordinator.go:210-221 | Writes one line per pair, key and value separated by a space |
| `PartitionFile.RoundTrip` | src/mr/coordinator.go:210-221 | Reading a partition file back gives the pairs that were written, in order, if and only if there is at least one and no key or value holds a space or a newline |
| `PartitionFile.SplitOfJoin` | src/mr/worker.go:185-186 | Splitting joined pieces gives them back when none holds the separator |
| `PartitionFile.JoinOfSplit` | src/mr/worker.go:185-186 | Joining the pieces of a split gives the text back |
| `PartitionFile.LineRoundTrip` | src/mr/worker.go:270-277 | toKeyValue of a printed line is the pair |
| `PartitionFile.ToKeyValueMeaning` | src/mr/worker.go:270-277 | A line without a space is the panic; otherwise the key ends at the first space, and the value at the next one or at the end |
| `PartitionFile.ReadingFails` | src/mr/worker.go:189-191 | Reading fails exactly when some line has no space |
| `PartitionFile.FileVector` | src/mr/coordinator.go:210-221 | The bytes of a file with two pairs |
| `PartitionFile.ExecuteReducef` | src/mr/worker.go:178-213 | Panics exactly on a file with a line without a space; otherwise its lines reduce some sorted order of the pairs in the file |
| `KeyValues.Sort` | src/mr/worker.go:193 | Some sorted rearrangement; nothing about equal keys is promised |
| `KeyValues.GroupAndReduce` | src/mr/worker.go:196-213 | One line for each distinct key in increasing order, from one call of reducef with exactly the values of that key |
| `KeyValues.ReductionOfRearrangement` | src/main/mrsequential.go:59-84 | With a reducef that ignores the order of values the lines of a list are the lines of each of its rearrangements |
| `KeyValues.LineCount` | src/main/mrsequential.go:68-84 | A line occurs once if it is the line of its key, and otherwise not at all |
| `Texts.LessIsTotal` | src/mr/worker.go:26 | The lexicographic order of the keys is total and irreflexive |
| `MrSequential.RunSequential` | src/main/mrsequential.go:38-84 | Stops exactly when a file cannot be read; otherwise prints the reduction of some sorted order of mapf of all files |
| `MrSequential.SequentialOutputIsUnique` | src/main/mrsequential.go:59-84 | With a reducef that ignores the order of values every run prints the same list of lines |
| `MrWorker.Process` | src/mr/worker.go:66-79 | One round of the worker: a success is reported under the id of the worker with the retries it was told, a failure under -1 with one more retry and no results |
| `MrWorker.ExecuteMapf` | src/mr/worker.go:153-176 | Appends mapf of the file, or fails and appends nothing |
| `KvServer.KVServer.Get` | src/kvsrv1/server.go:53-66 | The value and version of the key, or ErrNoKey |
| `KvServer.KVServer.Put` | src/kvsrv1/server.go:73-79 | The new store and the error of the conditional put |
| `KvServer.KVServer.HandlePut` | src/kvsrv1/server.go:87-104 | The new store and the error of the conditional put |
| `KvServer.PutMeaning` | src/kvsrv1/server.go:87-104 | A put takes effect exactly when it names the current version, then raises it by one; otherwise nothing changes; no other key is touched; ErrNoKey is answered exactly for a non-zero version of a missing key |
| `Linearizability.HistoryIsLinearizable` | src/kvsrv1/client.go:34-96 | Every history of concurrent Gets and Puts over lost requests and replies has one order with each returned call exactly once, respecting real time, that the model accepts with Get versions checked too, ending in the state of the store; it accepts the calls on a key if and only if no Put on it returned ErrNoKey |
| `Linearizability.PointFits` | src/models1/kv.go:49-67 | The model accepts each call at its linearization point, unless it is a Put to a missing key, and moves to the state the server has there |
| `Linearizability.OrderKeepsRealTime` | src/kvsrv1/client.go:34-96 | The order of the points never puts a call before one that had returned when it began, and repeats no call |
| `Linearizability.ReturnedBeforeInvoked` | src/kvsrv1/client.go:34-96 | Real time is the order of the steps: a call that returns before another is invoked precedes it |
| `Linearizability.ReturnedAsDue` | src/kvsrv1/client.go:34-96 | A call returns what the state of its key demands when it runs for the last time: a Get the value and version; a Put OK exactly when it names the version, ErrNoKey for a missing key, otherwise ErrMaybe if and only if a message of the call was lost, and ErrVersion if none was |
| `Linearizability.RetriedMeansLost` | src/kvsrv1/client.go:83-87 | A call counts as sent more than once exactly when one of its messages was lost |
| `Linearizability.ModelIsServer` | src/models1/kv.go:49-67 | The model goes where the server goes, and accepts exactly the value and version due to a Get, and for a Put ErrMaybe and the error due, with ErrVersion for ErrNoKey |
| `Linearizability.QuietCallReturns` | src/kvsrv1/client.go:34-96 | From every state a call that loses no message can run and return what the store holds |
| `Linearizability.LostReplyGivesMaybe` | src/kvsrv1/client.go:83-93 | A Put whose reply is lost takes effect once and returns ErrMaybe |
| `Linearizability.LostRequestGivesOK` | src/kvsrv1/client.go:83-93 | A Put whose request is lost, and then arrives, returns OK |
| `KvPartition.Partition` | src/models1/kv.go:27-43 | Each part is all operations on one key, in their order; every operation is in a part, and the parts ascend strictly by key |
| `KvPartition.PartsAreAccepted` | src/models1/kv.go:27-67 | Running the model over the part of a key, in the order of the points, accepts it exactly when no Put on the key was answered ErrNoKey, and ends in the state of the store |
| `Clerk.Clerk.Put` | src/kvsrv1/client.go:79-96 | The retry loop leaves the server as after all attempts of the call and returns the last answer, ErrVersion turned into ErrMaybe if it retried |
| `Clerk.PutAnswers` | src/kvsrv1/client.go:79-96 | Seen from the store at the last attempt: OK exactly when the version is the key's, ErrNoKey exactly for a missing key and a version other than 0, and for another version of a present key ErrVersion after one attempt, ErrMaybe after more |
| `Clerk.Clerk.Get` | src/kvsrv1/client.go:34-60 | The retry loop changes nothing itself and returns what the key holds when its last attempt runs |
| `Clerk.Clerk.Call` | src/labrpc/labrpc.go:302-349 | One attempt: not executed, executed with the reply lost, or executed and answered |
| `Clerk.PutAtMostOnce` | src/kvsrv1/client.go:79-96 | A clerk Put takes effect at most once over all its retries, whatever other clients do in between: exactly once if it returns OK, never if it returns ErrVersion or ErrNoKey |
| `Clerk.MaybeIsUndecided` | src/kvsrv1/client.go:91-93 | ErrMaybe is returned both by a Put that took effect and by one that did not |
| `PutCounts.VersionCountsEffects` | src/kvsrv1/server.go:87-104 | The version of a key is the number of Puts on it that took effect |
| `PutCounts.VersionBetweenAnswers` | src/kvtest1/kvtest.go:137-151 | The version of a key is at least the number of OKs, and once all Puts have returned at most OKs plus ErrMaybes |
| `PutCounts.CheckPutConcurrent` | src/kvtest1/kvtest.go:137-151 | Adds the counts of the clients to those passed in, and accepts exactly when the key exists and its version equals the OKs, or on an unreliable network does not exceed OKs plus ErrMaybes |
| `PutCounts.ConcurrentPutsPassCheck` | src/kvtest1/kvtest.go:137-151 | The check passes after every run whose Puts have returned, with equality when no message was lost |
| `PutCounts.OnePut` | src/kvtest1/kvtest.go:219-238 | Each try names the version just read and says so in its value; it tries again after ErrVersion only, fails the test on another error or on a value that cannot be, and reports whether the last answer was OK |
| `PutCounts.ResultMeaning` | src/kvtest1/kvtest.go:219-238 | When the test fails, when it tries again, and that a put is counted as OK exactly when its answer is OK |
| `PutCounts.CountedPutTookEffect` | src/kvtest1/kvtest.go:219-238 | In every run a put counted as OK took effect, and one that is tried again did not |
| `PutCounts.OnePutIsNeverWrong` | src/kvtest1/kvtest.go:219-238 | When the puts and gets of OnePut are calls of one client in any run, it never fails the test, neither on an error, nor on a value, nor on a get |
| `PutCounts.GetSeesPut` | src/kvtest1/kvtest.go:226-231 | A get that begins after a put was answered OK returns the value of that put or a greater version |
| `Appends.CheckAppends` | src/kvtest1/kvtest.go:372-401 | Accepts exactly the lists in which the numbers of each client increase, whose length fits the version, and whose gaps are covered by the ErrMaybe answers of clients that have a result |
| `Appends.OneClientAppend` | src/kvtest1/kvtest.go:338-363 | Each put is the list just read with the present entry, under the version just read; the entry is numbered by the OK and ErrMaybe answers before it, and these are the counts returned |
| `Appends.RunFollowsLoop` | src/kvtest1/kvtest.go:338-363 | In every run the puts of a client are those that OneClientAppend makes of what its gets returned and its puts were answered, and its counts and its place are those of the loop |
| `Appends.ListsOnlyGrow` | src/kvtest1/kvtest.go:338-363 | No lost update: each step leaves the list or extends it by one entry, and the version counts the entries |
| `Appends.AppendsAppearOnce` | src/kvtest1/kvtest.go:338-363 | Every append answered OK is in the list exactly once, every other at most once, and only appends that were made are in it |
| `Appends.QuietAppend` | src/kvtest1/kvtest.go:338-363 | From every state an append that meets no other and loses no message adds its entry and counts one OK |
| `Appends.LostReplyAppend` | src/kvtest1/kvtest.go:338-363 | An append whose reply is lost is in the list once and counts one ErrMaybe |
| `Appends.LostRequestAppend` | src/kvtest1/kvtest.go:338-363 | An append whose request is lost, and then arrives, counts one OK |
| `Appends.CheckAcceptsEveryRun` | src/kvtest1/kvtest.go:372-401 | The checker accepts the list of every run of any number of clients |
| `Lock.Lock.Acquire` | src/kvsrv1/lock/lock.go:36-64 | The loop over the clerk leaves the server as after its rounds, of which each is the decisions that the protocol makes too |
| `Lock.Lock.Release` | src/kvsrv1/lock/lock.go:66-79 | The loop over the clerk leaves the server as after its rounds, of which each is the decisions that the protocol makes too |
| `Lock.AcquireReturnsHolding` | src/kvsrv1/lock/lock.go:36-64 | When Acquire returns the key holds the id of the lock at that moment, whatever other clients and the network did before |
| `Lock.AcquireRoundMeaning` | src/kvsrv1/lock/lock.go:36-64 | A round without interference takes a missing or empty key under the next version, and returns unless a reply to its put was lost; with its own id it returns, with another it goes on, and both change nothing |
| `Lock.FreeLockIsTaken` | src/kvsrv1/lock/lock.go:36-64 | Two such rounds take a free lock, however many messages are lost |
| `Lock.ReleaseRoundMeaning` | src/kvsrv1/lock/lock.go:66-79 | A round of Release without interference returns; it empties the key if it holds the id, and changes nothing otherwise |
| `Lock.LockChangesHands` | src/kvsrv1/lock/lock.go:36-79 | After the Release of its holder another lock takes the key |
| `LockProtocol.MutualExclusion` | src/kvsrv1/lock/lock.go:36-79 | With any number of locks on one name and requests and replies lost, duplicated, reordered and delayed without limit, at most one lock is held, and the stored value is then its id |
| `LockProtocol.ReleaseIsDefinite` | src/kvsrv1/lock/lock.go:66-79 | While a lock is idle and not held, the stored value is not its id and no request it ever sent can still take effect |
| `LockProtocol.ReleaseMaybeMeansCleared` | src/kvsrv1/lock/lock.go:66-79 | Any answer to the Put of Release, ErrMaybe included, means that a Put of the same lock cleared the key |
| `LockProtocol.FreeLockCanBeTaken` | src/kvsrv1/lock/lock.go:36-64 | From every state with a missing or empty key a lock can acquire: its five steps lead to being held with its id stored |
| `LockProtocol.HeldLockCanBeReleased` | src/kvsrv1/lock/lock.go:66-79 | From every state in which its id is stored a lock can release in five steps |
| `LockProtocol.TakenLockIsLeft` | src/kvsrv1/lock/lock.go:49-53 | While another id is stored Acquire asks again and puts nothing |
| `LockProtocol.NetworkForgetsNothing` | src/labrpc/labrpc.go:302-349 | Every request may run again at any later time, and every answer stays on the network |
| `ShardConfig.ShardConfig.constructor` | src/shardkv1/shardcfg/shardcfg.go:44-49 | No groups, and every shard at group 0 |
| `ShardConfig.ShardConfig.Copy` | src/shardkv1/shardcfg/shardcfg.go:67-77 | A new configuration with the same value and its own array |
| `ShardConfig.ShardConfig.Count` | src/shardkv1/shardcfg/shardcfg.go:80-86 | Every owner is counted with its number of shards |
| `ShardConfig.ShardConfig.SortedGroups` | src/shardkv1/shardcfg/shardcfg.go:88-97 | The group ids in increasing order, whatever the order in which the map is enumerated |
| `ShardConfig.ShardConfig.Analyze` | src/shardkv1/shardcfg/shardcfg.go:80-111 | The unique most and least loaded groups with the smallest id among equals, and their loads |
| `ShardConfig.ShardConfig.LeastGroup` | src/shardkv1/shardcfg/shardcfg.go:115-118 | The least loaded group, or -1 without groups |
| `ShardConfig.ShardConfig.AssignUnassigned` | src/shardkv1/shardcfg/shardcfg.go:131-138 | The first loop gives each shard without a current group to the group least loaded at that moment |
| `ShardConfig.ShardConfig.MoveFirst` | src/shardkv1/shardcfg/shardcfg.go:144-149 | The lowest shard of the most loaded group changes owner |
| `ShardConfig.ShardConfig.LevelLoads` | src/shardkv1/shardcfg/shardcfg.go:140-153 | The second loop applies the balancing moves until loads are within one |
| `ShardConfig.ShardConfig.Rebalance` | src/shardkv1/shardcfg/shardcfg.go:122-154 | The array in place becomes the result that the following lemmas are about |
| `Rebalance.RebalanceCorrect` | src/shardkv1/shardcfg/shardcfg.go:122-154 | Every shard belongs to a current group and loads differ by at most one |
| `Rebalance.MinimalMovement` | src/shardkv1/shardcfg/shardcfg.go:122-154 | From any starting assignment, no valid assignment with loads within one of each other differs from the start in fewer shards than the result of Rebalance |
| `Rebalance.MovesOnce` | src/shardkv1/shardcfg/shardcfg.go:131-153 | Counting both loops no shard changes owner twice, no group both donates and receives in the second loop, and that loop runs at most once per shard |
| `Rebalance.MovesGoDownhill` | src/shardkv1/shardcfg/shardcfg.go:140-153 | A shard that leaves a live group had an owner at least two shards above the receiver |
| `Rebalance.OrphansAssigned` | src/shardkv1/shardcfg/shardcfg.go:131-138 | After the first loop every shard has a current group, no group has lost a shard, and no receiver is more than one above any group |
| `Rebalance.LevelCorrect` | src/shardkv1/shardcfg/shardcfg.go:140-153 | The second loop ends balanced, keeps every shard with a current group, and never turns a donor into a receiver |
| `Rebalance.KeptAtMost` | src/shardkv1/shardcfg/shardcfg.go:122-154 | A valid balanced assignment keeps at most the lower of the two loads of each group |
| `Rebalance.KeptExactly` | src/shardkv1/shardcfg/shardcfg.go:122-154 | The result of Rebalance keeps exactly that many |
| `Rebalance.JoinLocality` | src/shardkv1/shardcfg/shardcfg.go:207-213 | From a balanced assignment JoinBalance moves shards only from old groups to new ones |
| `Rebalance.LeaveLocality` | src/shardkv1/shardcfg/shardcfg.go:215-221 | A LeaveBalance that leaves a group moves exactly the shards of the leaving groups |
| `ShardConfig.ShardConfig.Overlaps` | src/shardkv1/shardcfg/shardcfg.go:165-174 | True exactly when some group already has one of the servers |
| `ShardConfig.ShardConfig.Join` | src/shardkv1/shardcfg/shardcfg.go:156-183 | Succeeds exactly for a non-empty set of new groups that share no server with each other or with a current group; then adds them and counts one configuration. Otherwise some of the groups, all new, have been added, and Num stays |
| `ShardConfig.ShardConfig.Leave` | src/shardkv1/shardcfg/shardcfg.go:185-205 | Succeeds exactly for a non-empty list of current groups without repetition; then removes them and counts one configuration. Otherwise exactly the groups before the first missing one have been removed, and Num stays |
| `ShardConfig.ShardConfig.JoinBalance` | src/shardkv1/shardcfg/shardcfg.go:207-213 | Succeeds exactly when Join does, and then rebalances; otherwise it moves no shard, Num stays, and some of the groups, all new, have been added |
| `ShardConfig.ShardConfig.LeaveBalance` | src/shardkv1/shardcfg/shardcfg.go:215-221 | Succeeds exactly when Leave does, and then rebalances; otherwise it moves no shard, Num stays, and exactly the groups before the first missing one have been removed |
| `ShardConfig.ShardConfig.IsMember` | src/shardkv1/shardcfg/shardcfg.go:229-236 | True exactly when the group has a shard |
| `ShardConfig.ShardConfig.CheckConfig` | src/shardkv1/shardcfg/shardcfg.go:238-279 | Accepts exactly a configuration with the given groups, every shard at a current group, and loads within one |
| `ShardConfig.RunIsGood` | src/shardkv1/shardcfg/shardcfg.go:122-221 | After any sequence of successful joins and leaves from the empty configuration: every shard at a current group (all 0 when there are none), loads within one, server lists disjoint, Num equal to the number of calls |
| `ShardConfig.RunPassesCheck` | src/shardkv1/shardcfg/shardcfg.go:238-279 | CheckConfig accepts every such configuration |
| `ShardConfig.JoinThenLeave` | src/shardkv1/shardcfg/shardcfg.go:207-221 | Joining groups and removing them again leaves every shard they did not hold in between where it was |
| `ShardLoads.BalancedLevel` | src/shardkv1/shardcfg/shardcfg.go:140-143 | In a balanced assignment every group has the quotient of shards and groups, or one more |
| `ShardLoads.SameLevel` | src/shardkv1/shardcfg/shardcfg.go:140-143 | Two balanced assignments have the same level, and the same number of groups above it |
| `RaftLog.Raft.AppendLogEntry` | src/raft1/raft.go:272-327 | The new state and the reply of the append handler; a rejection answers the last index with the rejected term, and the reply carries the term the follower had before |
| `RaftLog.AppendMeaning` | src/raft1/raft.go:272-327 | Field by field: term, mode, vote, log, reply term, success and conflict index |
| `RaftLog.CommitMeaning` | src/raft1/raft.go:318-320 | A matching heartbeat of a term that is not older raises the commit index to the lesser of the leader's and the last index, never beyond the larger of its old value and the leader's; nothing else changes it. Inside the log it never falls, and stays inside unless an accepted request ends the log at or before it |
| `RaftLog.CommitCanFall` | src/raft1/raft.go:301-320 | A concrete accepted request that ends the log before the commit index, and a heartbeat that then lowers it |
| `RaftLog.HeartbeatRound` | src/raft1/raft.go:550-588 | A heartbeat and its answer keep the log and the next index; what the follower commits anew is the leader's exactly when the terms agree at its new commit index, in particular when the leader has committed no more than it sent |
| `RaftLog.HeartbeatCanCommitOthers` | src/raft1/raft.go:318-320 | Otherwise it can fail: concrete sorted, matching and aligned logs in which the follower commits an entry that is not the leader's |
| `RaftLog.Raft.ResolveIndexConflict` | src/raft1/raft.go:688-700 | The last index whose entry has the term, and 0 when there is none |
| `RaftLog.LastOfTerm` | src/raft1/raft.go:688-700 | The last index whose entry has the term, and 0 when there is none |
| `RaftLog.Raft.BuildAppendLogArgs` | src/raft1/raft.go:610-622 | The request for a next index, or a failure when the index before it is outside the log |
| `RaftLog.Raft.BuildRequest` | src/raft1/raft.go:550-556 | The request carries the log from the next index when the captured last index reaches it, and no entries otherwise |
| `RaftLog.Raft.HandleReply` | src/raft1/raft.go:564-590 | A higher term makes a follower; a reply of the own term to a request with entries moves the next index past them, records the length of the log as match index and commits when that makes a quorum, or moves the next index back to the conflict; anything else changes nothing |
| `RaftLog.Raft.IsQuorumReached` | src/raft1/raft.go:643-658 | True exactly when the peers that match the last index, with the leader itself, are one more than half |
| `RaftLog.QuorumIsMajority` | src/raft1/raft.go:643-658 | The peers that hold the last entry are then the smallest majority; with one more the answer is no |
| `RaftLog.Raft.SetToFollower` | src/raft1/raft.go:624-629 | Takes over the term and clears the vote, and keeps the log |
| `RaftLog.Raft.SetToLeader` | src/raft1/raft.go:631-641 | Every next index starts at the end of the log and every match index at 0, and the election is over |
| `RaftLog.RejectionLowers` | src/raft1/raft.go:291-311 | One rejection strictly lowers the previous index if and only if the follower has no entry of the rejected term beyond it |
| `RaftLog.BackOffIsExact` | src/raft1/raft.go:291-311 | For sorted logs, every rejection at every previous index strictly lowers it and keeps it in the log if and only if a term of the leader that the follower holds at a later index it holds at the same index too |
| `RaftLog.LogMatchingIsNotEnough` | src/raft1/raft.go:291-311 | Log matching at equal indexes does not give that condition: concrete logs where the rejection sends the leader beyond its own log |
| `RaftLog.MissingTermIsAligned` | src/raft1/raft.go:291-311 | A follower that lacks a term in the middle meets the condition: concrete logs that are repaired after two rejections |
| `RaftLog.OneLeaderPerTerm` | src/raft1/raft.go:291-317 | Two logs match and are aligned, each with the other, if and only if for every term there is one leader's log of which both are beginnings up to each entry of that term |
| `RaftLog.AlignedRejectionLowers` | src/raft1/raft.go:301-311 | Under that condition each rejection strictly lowers the previous index and keeps it in the log |
| `RaftLog.RepairRound` | src/raft1/raft.go:550-588 | One request and its answer: either the follower takes over the whole log and the leader goes to its end, or the follower keeps its log and the leader goes strictly back within its own |
| `RaftLog.RepairConverges` | src/raft1/raft.go:550-588 | The rejected indexes strictly decrease, there are at most as many as distinct terms in the log up to the first one tried, and the first acceptance makes the follower equal to the log the leader sent from |
| `RaftLog.RejectionsAtMostTerms` | src/raft1/raft.go:564-588 | Rejections are at most the distinct terms of the leader up to the first index tried |
| `RaftRepair.RepairIsSafe` | src/raft1/raft.go:529-594 | With requests and replies lost, delayed, duplicated and reordered, and commands arriving: the leader never reads outside its log, and once the follower has accepted anything its log is the log the leader sent its last accepted request from |
| `RaftRepair.RejectionBacksOff` | src/raft1/raft.go:564-588 | Acting on a rejection, however late, sends the leader strictly before the index that was rejected |
| `RaftRepair.StaysAligned` | src/raft1/raft.go:291-317 | Acceptances and new commands keep both logs sorted, matching and aligned |
| `RaftRepair.RepairCanFinish` | src/raft1/raft.go:529-594 | From the end of every run, whatever is still on the network, the repair can be completed if the leader has something to send: the follower's log becomes the leader's and the next index its end |
| `RaftRepair.NetworkForgetsNothing` | src/raft1/raft.go:529-594 | Every tick, snapshot, request and reply may be acted on at any later time, and again |
| `Demux.CallMap.Close` | src/tester1/demux/callmap.go:19-25 | Closed from now on; the calls stay |
| `Demux.CallMap.Put` | src/tester1/demux/callmap.go:34-43 | Registers the call unless the map is closed |
| `Demux.CallMap.Remove` | src/tester1/demux/callmap.go:45-54 | Removes the call and returns its channel, or reports that there is none |
| `Demux.CallMap.Outstanding` | src/tester1/demux/callmap.go:56-66 | Every registered tag once, in any order |
| `Demux.DemuxClnt.constructor` | src/tester1/demux/dmxclnt.go:34-47 | No calls; the first tag has gone to the message that names the client |
| `Demux.DemuxClnt.NewTag` | src/tester1/demux/dmxclnt.go:49-56 | The next tag, modulo 2^32 |
| `Demux.DemuxClnt.Deliver` | src/tester1/demux/dmxclnt.go:58-64 | The call with the tag leaves the map and is told the reply; without one the process stops |
| `Demux.DemuxClnt.ReadAll` | src/tester1/demux/dmxclnt.go:66-75 | Every reply goes to the call with its tag, also to one that registers while the loop runs; a reply without a call stops the process |
| `Demux.DemuxClnt.Drain` | src/tester1/demux/dmxclnt.go:76-80 | Every call left is told the connection error, and the map is empty |
| `Demux.DemuxClnt.Reader` | src/tester1/demux/dmxclnt.go:66-81 | Unless a reply had no call, nothing stays registered, and each call that was registered, before or while the reader ran, is told exactly one thing: a reply that came for its tag or the connection error |
| `Demux.CallsAreToldOnce` | src/tester1/demux/dmxclnt.go:58-81 | Whatever calls register and replies arrive: if every call has its own channel and a free tag and none stays registered, each is told exactly one thing |
| `Demux.EventMeaning` | src/tester1/demux/dmxclnt.go:58-81 | What one registration, reply or close does to the table, the channels and the process |
| `DemuxProtocol.DemuxIsSafe` | src/tester1/demux/dmxclnt.go:49-101 | In every run in which no call registers under a tag that is still registered: no reply finds its call missing, each call gets at most one, what it returns is the answer given to it or the connection error, and after the drain no call is registered or waiting |
| `DemuxProtocol.FewCallsReuseNoTag` | src/tester1/demux/dmxclnt.go:49-56 | A connection with at most 2^32 calls meets that condition |
| `DemuxProtocol.ReturnedAnswerIsOwn` | src/tester1/demux/dmxclnt.go:83-101 | What a SendReceive returns is the connection error or an answer that the server gave in this run to exactly the bytes of that call |
| `DemuxProtocol.ReturnedWasDelivered` | src/tester1/demux/dmxclnt.go:58-81 | A call returns what the reader delivered to it: an answer taken from the connection, or the error, and then in the drain after a failed read |
| `DemuxProtocol.HealthyCallsGetAnswers` | src/tester1/demux/dmxclnt.go:66-101 | While no read fails every call that returns brings the server's answer to its own bytes |
| `DemuxProtocol.TakenReplyIsReturned` | src/tester1/demux/dmxclnt.go:74-100 | The call whose reply the reader takes is told exactly that, and returns nothing else |
| `DemuxProtocol.QuietCallReturns` | src/tester1/demux/dmxclnt.go:83-101 | From every state with an open table, a reading reader and nothing on the way a call can go through and return the server's answer |
| `DemuxProtocol.DrainCanFinish` | src/tester1/demux/dmxclnt.go:66-81 | From the end of every run a failed read can be carried to the end of the drain; then every call that waited has been told the error |
| `DemuxProtocol.ClosedTableRefuses` | src/tester1/demux/callmap.go:34-43 | After a close, also from outside, a call that wants to register is refused |
| `DemuxProtocol.AnswersAreOwn` | src/tester1/demux/dmxsrv.go:49-70 | The server answers each request it was sent once, and the answer is recorded for the call whose bytes it was given |
| `DemuxProtocol.OlderCallIsLost` | src/tester1/demux/callmap.go:34-43 | The first call that registers under a tag that is still registered takes the place of the older call, which is then told nothing in the rest of the run and waits for ever |
| `DemuxProtocol.DrainedStaysEmpty` | src/tester1/demux/callmap.go:34-43 | After the drain no step registers a call |

## Left out

- MapReduceEquivalence.DistributedIsSequential: only runs in which no task is skipped; a skip drops the data of its
  task, and Done does not start the reduce phase itself.
- MapReduce.SweepIsDone: which tasks are late is a parameter; times and sleeps are not modelled.
- MrWorker.Process: a panic in mapf or reducef, and the copies written to the worker's own directory, are not part
  of this model. A line is written in one step, at the line that its writer has reached.
- RaftLog.RepairConverges: needs the condition of `BackOffIsExact`, and bounds the rejections by the distinct terms up
  to the first index tried.
- RaftRepair.RepairIsSafe: the follower does not change its term during the repair and no other leader writes to it.
- RaftLog.Raft.HandleReply: sending and applying committed entries is left out, as are elections, persistence and
  snapshots.
- Clerk.Clerk.Put: the messages the network loses and the puts of other clients are parameters; sleeps are left out.
  The same holds for Get.
- Lock.Lock.Acquire: the rounds are a parameter of the method, which stops when they run out; without that bound the
  loop need not end. The same holds for Release.
- Linearizability.HistoryIsLinearizable: a request that is still running when its client gives up on it, after a
  server was deleted, is not part of this model.
- Appends.OneClientAppend: what its gets return and how its puts are answered are parameters; `RunFollowsLoop` ties
  them to runs. Lists are stored as
  lists; their JSON text is left out.
- PutCounts.OnePut: what its gets return and how its puts are answered are parameters; `OnePutIsNeverWrong` takes them
  from a run. The JSON text of an entry is any encoding that can be decoded.
- ShardConfig.ShardConfig.Join: stopping the process is the outcome Fatal.
- ShardConfig.ShardConfig.Analyze: the bound of 257 shards is the source's own sentinel.
- DemuxProtocol.DemuxIsSafe: the claims end when a tag is registered twice (`OlderCallIsLost`). Byte framing,
  encoding and the naming message of a new client are left out; a channel is a buffer that never blocks the reader.
- Intermediate map files, sockets, plugins, process control, the shard key hash, configuration text, stubs without
  an algorithm, annotation and visualisation.
