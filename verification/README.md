# Verified models of the 6.5840 labs

This project models, in Dafny, the implemented parts of the distributed-systems labs and proves
what they promise over every run: a versioned key/value server behind a lossy network with a
retrying clerk, a distributed lock built on it, a MapReduce coordinator with its workers, shard
rebalancing, three web crawlers, and a client that multiplexes calls over one connection.
`dafny verify dfyconfig.toml` checks all of it.

## How it is built

Concurrent parts are step machines: a state, a predicate for the steps that are possible, a
function for what a step does, and runs as sequences of steps chosen by anyone. Theorems quantify
over all runs. The code that such steps stand for is also written as Dafny classes and loops, each
proved equal to the functions the machine uses.

- **Key/value store** (`KvServer`, `KvNetwork`, `KvModel`, `KvSpec`, `KvLinearizability`, `KvClerk`,
  `KvLate`, `KvClerkLoop`). A call stays in its clerk until a reply arrives; each transmission is lost before the
  server, or executed and its reply lost, or answered. A handler may also run after its clerk has
  abandoned that transmission (`Abandon`, `ExecuteLate`): this is what happens when the server is
  replaced or the client's end is disabled during a call. At-most-once, the meaning of replies and the
  counting of versions hold even then; `KvLate` shows what does not.
- **Lock** (`LockProtocol`, `LockProof`, `LockTheorems`, `LockOwnership`, `LockData`, `LockAlone`,
  `LockLoop`, `LockRefinement`). Any number of lock users with program counters over that network, late duplicates
  included, together with strangers that use other keys, and with data keys that holders read and
  write.
- **MapReduce** (`MrReduce`, `MrPartition`, `MrCoordinator`, `MrMachine`, `MrLeases`, `MrOutput`,
  `MrProgress`, `MrReread`). A job is one grant in the hands of a worker; it may stop for ever, or go on renaming
  files and reporting after its lease was given to somebody else.
- **Shards** (`ShardBalance`, `ShardOrder`, `ShardSearch`, `ShardConfig`). Balancing as a function on assignments, what
  the program computes for any number of shards and groups, and the configuration object whose loops compute it
  in place.
- **Crawlers** (`Crawler`, `CrawlerChannel`, `CrawlerMutex`). Any finite link graph. The channel
  crawler is the coordinator's loop with workers that run whenever they like between its steps; the
  mutex crawler is a machine whose schedules are lists of thread numbers.
- **Demux** (`Demux`, `DemuxProof`, `DemuxDelivery`). Callers, reader, server goroutines, `Close` and a connection
  that may fail at any moment.

## Where the code differs from what is written about it

- `KvModel.Step` in the repository rejects every Put that answers ErrNoKey, but the server gives that
  answer. `EveryRunLinearizable` therefore speaks of two specifications: the repository's own, which
  explains a history if and only if no Put in it answered ErrNoKey, and an exact one that knows this
  reply (and fixes the version and error of a Get). `MissingKeyHappens` is a run without any loss that
  only the exact one explains.
- The repository's README says that Release compares the value it reads with the holder's id. The code
  ignores the value. The model follows the code: that the caller holds the lock is demanded of the
  caller. `ReleaseTakesEffect` shows that this is enough, and `ReleaseByOtherBreaks` that it is needed.
- `ReportTaskCompletion` looks only at the attempt number. `ReportMovesBackIff` gives the exact
  condition under which a report moves the phase back; that it never happens is a property of runs in
  which each grant is reported at most once, which the workers ensure. `SecondReportReopens` shows that
  otherwise every finished job can be taken back, and then nobody is given work that could end it.
- The search for the emptiest group starts from the constant 257. `RebalanceRightIff` shows, for every
  set of groups, that rebalancing is right for every assignment exactly if there are at most 257 shards
  for each group; with more, `TooManyShards` leaves shards in no group.
- A reduce worker finds its intermediate files by a pattern that its output file matches too. A task
  that is granted again after its output was written reads that output as well. `ReadsOnlySharesIff`
  shows that every worker of every run reads exactly its share if and only if the decoder makes no
  pairs of the output files this job can write; `LoudOutputBreaks` that the output can be wrong
  otherwise, and `NullWordBreaks` that counting the single word "null" is such a job.
- A handler may outlive its call (src/labrpc/labrpc.go:324-348). A Put that answered ErrNoKey may then be
  written after all (`RefusedThenWritten`); `NoKeyNeverWrittenIff` says exactly when it never is. A
  history may then have no explanation. It has one whenever no late handler writes after its call
  returned and no Put that answered ErrNoKey was written. Neither half can be dropped
  (`LateHandlerBreaksOrder`, `RefusedWriteBreaksOrder`), but the condition is sufficient, not necessary
  (`UnseenLateWrite`).

## Assumptions

- Holder ids are non-empty and differ among the contenders of one lock name, and each Lock object is
  used by one thread. Versions, tags and attempt numbers do not wrap around.
- There is at least one input file and one reduce task; the directory is fresh; map yields the same
  pairs each time, in any order; renames are atomic. For the contents of the output: reduce ignores the
  order of values, and the decoder of intermediate files makes no pairs of the output files that this
  job can write.
- The hash that picks a partition is any function of the key. Times are arguments.

## Model

| member | source | states |
|---|---|---|
| KvServer.ServeIsCompareAndSwap | src/kvsrv1/server.go:40-78 | the store changes exactly when the versions agree, then only at that key and by one version; which error is given otherwise |
| KvServer.KVServer.constructor | src/kvsrv1/server.go:31-36 | a new server has no keys |
| KvServer.KVServer.Get | src/kvsrv1/server.go:40-52 | the handler reads the store as the transition of the machine does, and changes nothing |
| KvServer.KVServer.Put | src/kvsrv1/server.go:58-78 | the handler changes the store and answers as the transition of the machine does |
| KvNetwork.VersionCountsApplied | src/kvsrv1/server.go:62-77 | a key's version is the number of Puts ever applied to it |
| KvNetwork.OnceApplied | src/kvsrv1/client.go:63-78 | of two executions of one call at most one writes |
| KvNetwork.AtMostOnce | src/kvsrv1/client.go:63-78 | over all transmissions, also those executed after the clerk gave them up, a call writes at most once |
| KvModel.SpecsAgree | src/models1/kv.go:49-66 | without ErrNoKey the exact specification and the repository's run to the same state |
| KvModel.MissingKeyUnexplained | src/models1/kv.go:57-63 | no order explains a history in which a Put answered ErrNoKey |
| KvModel.Partition | src/models1/kv.go:27-43 | one part for each key that occurs, in ascending order of keys, each with the operations on that key |
| KvModel.OnKeyOrder | src/models1/kv.go:27-43 | a part holds all operations on its key, each once and in their order |
| KvSpec.ExactIsServer | src/kvsrv1/server.go:40-78 | in every state of the server the exact specification allows the server's own reply, ErrMaybe for a Put that is not refused for want of its key, and nothing else; and it moves as the server does |
| KvSpec.StateIsEffects | src/models1/kv.go:44-66 | the state of a key is the number of Puts that took effect, each made with the number of those before it, and the value of the last |
| KvSpec.PorcupineAcceptsIff | src/models1/kv.go:49-66 | the repository's specification accepts an order exactly if OK is answered only by Puts that took effect, ErrVersion only by others, ErrNoKey by none, and a Get returns the value of the last that took effect |
| KvSpec.OksIncrease | src/models1/kv.go:57-63 | in an order that either specification accepts, the Puts that answered OK have strictly increasing versions |
| KvSpec.NoLostUpdate | src/models1/kv.go:57-63 | in a linearizable history two Puts on one key that returned OK were made with different versions |
| StringOrder.LessEqIff | src/mr/worker.go:27-27 | one key comes before another exactly if it is a prefix of it or has the smaller character at the first difference |
| KvLinearizability.InvStep | src/labrpc/labrpc.go:290-383 | every step, late handlers included, keeps the record of which execution each call's reply came from and of real time |
| KvLinearizability.OrderSimulates | src/kvsrv1/server.go:40-78 | running the specification over the chosen executions reproduces the server's store, key by key |
| KvLinearizability.OrderGenuine | src/kvsrv1/client.go:33-78 | the order names each call at most once, as it was invoked |
| KvLinearizability.OrderTimely | src/labrpc/labrpc.go:290-383 | a call that returned before another was invoked comes before it |
| KvLinearizability.OrderComplete | src/kvsrv1/client.go:33-78 | every call that returned is in the order, with the reply it returned |
| KvLinearizability.EveryRunLinearizable | src/kvsrv1/client.go:33-78 | in every run in which no late handler writes after its call returned: the repository's specification explains the history exactly if no Put answered ErrNoKey, and the exact one explains it if no Put that answered ErrNoKey was written |
| KvLinearizability.LinearizableIfPutsAwaited | src/kvsrv1/client.go:33-78 | in every run in which only transmissions of Gets are abandoned, the exact specification explains the history, and the repository's does exactly if no Put answered ErrNoKey |
| KvLinearizability.MissingKeyHappens | src/kvsrv1/server.go:63-71 | a run without loss whose Put answers ErrNoKey, which the exact specification explains and the repository's cannot |
| KvLate.LateHandlerBreaksOrder | src/labrpc/labrpc.go:324-348 | a run in which a late handler writes after its call returned, and no Put answered ErrNoKey, has a history that no order explains under either specification |
| KvLate.UnseenLateWrite | src/labrpc/labrpc.go:324-348 | a run with such a write can also have a history that both explain, as long as nobody reads what was written |
| KvLate.RefusedWriteBreaksOrder | src/labrpc/labrpc.go:324-348 | a run in which every late write comes before its call returns, but one of them belongs to a Put that answers ErrNoKey, has a history that no order explains under either specification |
| KvLate.RefusedThenWritten | src/kvsrv1/server.go:63-71 | a run in which a Put answers ErrNoKey and is written afterwards by a late handler |
| KvLate.NoKeyNeverWrittenIff | src/kvsrv1/client.go:63-78 | a Put that answered ErrNoKey is never written in any continuation exactly if it has not been and no abandoned transmission of it can still find its version; always so if none was abandoned |
| KvClerk.ReplyMeaning | src/kvsrv1/client.go:63-78 | in every run: OK: written exactly once; ErrVersion: never; ErrMaybe: at most once; ErrNoKey: never if no transmission of that call was abandoned |
| KvClerk.MaybeIsAmbiguous | src/kvsrv1/client.go:66-77 | ErrMaybe is answered in a run that wrote and in a run that did not |
| KvClerk.MaybeMeansLoss | src/kvsrv1/client.go:68-75 | ErrMaybe is answered only to a call of which a request or a reply was itself lost |
| KvClerk.SoleWriter | src/kvsrv1/client.go:63-78 | in every run a Put at the current version of a key that nobody else writes is written exactly once by the time it returns, and answers OK or ErrMaybe |
| KvClerk.VersionIsWriters | src/kvsrv1/server.go:62-77 | a key's version is the number of distinct calls that wrote it |
| KvClerk.VersionBetweenReplies | src/kvtest1/kvtest.go:137-151 | in every run: OKs ≤ version ≤ OKs + ErrMaybes + Puts in progress + abandoned Puts that answered ErrNoKey; of each Put in the second and the last group a message was lost, so both are empty if nothing was |
| KvClerkLoop.Clerk.Call | src/labrpc/labrpc.go:290-383 | one RPC: lost before the server, or executed and lost, or given up with its handler still to run, or answered; with other requests and late handlers before it |
| KvClerkLoop.Clerk.Get | src/kvsrv1/client.go:33-44 | the retry loop returns the first answer that gets through |
| KvClerkLoop.Clerk.Put | src/kvsrv1/client.go:63-78 | the retry loop with its flag returns what the specification of persistent sending says |
| KvClerkLoop.InsistRun | src/kvsrv1/client.go:63-78 | every execution of the retry loop, with any loss, interference and late handlers, is a run of the machine with the same store, the same late requests and the same returned reply |
| LockProof.InvStep | src/kvsrv1/lock/lock.go:33-76 | every move of any client and every network step keeps the lock invariant |
| LockTheorems.MutualExclusion | src/kvsrv1/lock/lock.go:33-76 | at most one client is between Acquire and Release of a lock, and the server's value is its id, with losses and late duplicates |
| LockTheorems.ReleaseTakesEffect | src/kvsrv1/lock/lock.go:68-76 | the Put of Release answers OK or ErrMaybe, was written exactly once, and the lock is no longer the caller's |
| LockOwnership.NeverOrphaned | src/kvsrv1/lock/lock.go:33-76 | in every run a non-empty lock has an owner whose own Put wrote that value, and the owner holds it; or is in Acquire and, however the run goes on, holds it once it has completed one more Get (after its Put, if that is in progress); or is releasing it with its clearing Put not yet written |
| LockOwnership.OwnershipStable | src/kvsrv1/lock/lock.go:33-76 | only the owner's own Release takes a lock from it |
| LockOwnership.OwnerReturns | src/kvsrv1/lock/lock.go:35-65 | an owner's Get in Acquire returns with the lock, and its Put with the lock or before such a Get |
| LockTheorems.GuardedWriteTakesEffect | src/kvsrv1/lock/lock_test.go:91-101 | a Put of guarded data at the version read answers OK or ErrMaybe and is written exactly once |
| LockTheorems.HolderViewExact | src/kvsrv1/lock/lock_test.go:82-98 | what a holder read or wrote since it acquired the lock is what the server holds |
| LockData.SeesLastWrite | src/kvsrv1/lock/lock_test.go:77-105 | a holder that reads guarded data which any holder wrote gets OK and the last completed write |
| LockAlone.AcquireAlone | src/kvsrv1/lock/lock.go:33-66 | from every state a client that finds the lock free or its own gets it, undisturbed, in at most two calls, and nobody else moves |
| LockAlone.ReleaseAlone | src/kvsrv1/lock/lock.go:68-76 | from every state that satisfies the invariant a holder frees the lock, undisturbed, in two calls |
| LockAlone.CreateAlone | src/kvsrv1/lock/lock_test.go:71-71 | guarded data that was never written is created by one call and otherwise left alone |
| LockAlone.UpdateAlone | src/kvsrv1/lock/lock_test.go:82-101 | a holder reads guarded data and writes it, undisturbed, in two calls: value replaced, version one higher, nothing else changed |
| LockAlone.ReleaseByOtherBreaks | src/kvsrv1/lock/lock.go:68-76 | if a contender that does not hold the lock calls Release while another holds it, the holder and any idle contender, the caller included, can be in the section together |
| LockLoop.Lock.Acquire | src/kvsrv1/lock/lock.go:33-66 | for any answers, call by call: after a failed Get it asks a Put at version 0, after a Get of an empty lock a Put at the version read, and a Get again after any other id and after every Put not answered OK; it returns exactly on a Put answered OK or a Get answering its own id; this is the protocol of the machine |
| LockLoop.Lock.Release | src/kvsrv1/lock/lock.go:68-76 | for any answers it asks one Get and one Put of the empty value at the version read, and returns after both; this is the protocol of the machine |
| LockLoop.Lock.constructor | src/kvsrv1/lock/lock.go:27-31 | a lock remembers its clerk, holder id and name |
| LockRefinement.AcquireIsRun | src/kvsrv1/lock/lock.go:33-66 | in every run of the lock machine, on the replies a client's calls really receive, the loop of Acquire asks that client's calls in order and has returned or is stuck where the client is; so mutual exclusion holds of the loop |
| LockRefinement.ReleaseIsRun | src/kvsrv1/lock/lock.go:68-76 | the same for Release from the moment a holder starts it |
| MrReduce.EndOfRun | src/mr/worker.go:62-67 | the inner loop finds the end of the run of equal keys |
| MrReduce.CollectValues | src/mr/worker.go:68-72 | the values of that run, in order |
| MrReduce.ReduceHelper | src/mr/worker.go:48-91 | on sorted pairs exactly one line for each key, made from all its values, in ascending order of keys |
| MrReduce.LinesAreLineSet | src/main/mrsequential.go:68-87 | grouping a sorted sequence yields the set of lines defined key by key |
| MrReduce.LinesAscend | src/main/mrsequential.go:68-87 | the lines of a sorted sequence come in strictly ascending order of keys |
| MrReduce.SortsAgree | src/main/mrsequential.go:59-87 | two sorts of the same pairs yield the same lines although the sort is not stable |
| MrPartition.Partition | src/mr/worker.go:142-145 | encoder r receives the pairs whose key hashes to r, in order |
| MrPartition.BucketCount | src/mr/worker.go:142-145 | each pair is in the partition of its key as often as it was emitted, and in no other |
| MrPartition.PartsMakeTheWhole | src/mr/worker.go:169-201 | reducing each partition separately gives together the lines of the whole |
| MrCoordinator.ReportMovesBackIff | src/mr/coordinator.go:107-138 | the exact condition under which a report moves the phase back |
| MrCoordinator.Coordinator.constructor | src/mr/coordinator.go:191-222 | the tables start idle in the map phase |
| MrCoordinator.Coordinator.Assign | src/mr/coordinator.go:65-105 | exit exactly if all is done; wait exactly if it is not and no entry of the phase is idle; otherwise the idle entry with the lowest number, with its attempt and its file, which alone changes |
| MrCoordinator.Coordinator.ReportTaskCompletion | src/mr/coordinator.go:107-138 | completes the entry if the attempt is current, and advances the phase after the last |
| MrCoordinator.Coordinator.Done | src/mr/coordinator.go:142-152 | true exactly when all is done |
| MrCoordinator.Coordinator.ExpireTasks | src/mr/coordinator.go:154-168 | exactly the leases older than ten seconds become idle under a new attempt |
| MrCoordinator.Coordinator.CheckTimeout | src/mr/coordinator.go:174-185 | of the current phase exactly the entries in progress for more than ten seconds become idle under a new attempt; all others stay |
| MrLeases.LeasesStep | src/mr/coordinator.go:65-186 | every step keeps the lease invariant |
| MrLeases.CoordinatorSafety | src/mr/coordinator.go:65-186 | over whole runs: phases advance, completed stays completed, Reduce means all maps are completed, AllDone means all are, no attempt is granted twice |
| MrLeases.SecondReportReopens | src/mr/coordinator.go:107-138 | in every run that is done, a second report of any map task's current attempt moves the phase back to Reduce, where every worker is told to wait and nothing can time out |
| MrLeases.TimedOutNeverCompletes | src/mr/coordinator.go:110-128 | the report of a timed-out attempt is ignored whenever it comes |
| MrLeases.GrantAccounting | src/mr/coordinator.go:65-168 | each entry was granted once per timeout and once more if not idle; the grants of a run add up |
| MrLeases.OnceEachIff | src/mr/coordinator.go:65-185 | a finished job took as many grants as there are map and reduce tasks exactly if no lease timed out, and then each task was granted exactly once |
| MrLeases.GrantsCarryFiles | src/mr/coordinator.go:65-105 | in every run a worker that is given map task m, at whatever attempt, is told to read file m, and one is told to exit exactly when all is done |
| MrLeases.GrantsFarApart | src/mr/coordinator.go:65-185 | as long as clocks do not go back, two grants of one task are more than ten seconds apart |
| MrOutput.SortByKey | src/main/mrsequential.go:59-59 | a sorted permutation |
| MrOutput.Sequential | src/main/mrsequential.go:38-87 | maps every file, sorts, and writes one line for each key from all values emitted for it |
| MrOutput.FilesStep | src/mr/worker.go:116-201 | every step, whatever the decoder and reduce, keeps what each published intermediate file holds, which files completed tasks have published and which files a worker can still open |
| MrOutput.ExactStep | src/mr/worker.go:169-201 | if output files are silent, every step keeps: a worker has read the pairs of its files and no others, and an output file holds the lines of its share |
| MrOutput.ReduceSeesAllMaps | src/mr/worker.go:169-193 | when a reduce job exists every intermediate file has been published |
| MrOutput.IntermediateComplete | src/mr/worker.go:142-163 | from then on file m, r holds exactly the pairs of map m that belong to r, whatever stale workers rename |
| MrOutput.MatchedFilesStay | src/mr/worker.go:172-193 | a file the pattern found can still be opened |
| MrOutput.DistributedEqualsSequential | src/mr/worker.go:116-201 | in every run, once all is done, every output file is in ascending order of keys and the lines of all of them together are exactly those of the sequential program on the same files, if reduce ignores the order of values and this job's output files are silent to the decoder |
| MrProgress.JobCanFinish | src/mr/coordinator.go:65-186 | after any run, however many workers are gone, one worker can bring the job to its end with that output |
| MrReread.OutputReadAgain | src/mr/worker.go:172-193 | for every job, task and order of its pairs there is a run in which the second worker of the task reads its share and what the decoder makes of the first worker's output |
| MrReread.ReadsOnlySharesIff | src/mr/worker.go:172-193 | every reduce worker of every run reads exactly its share if and only if the decoder makes no pairs of the output files the job can write |
| MrReread.LoudOutputBreaks | src/mr/worker.go:172-195 | if the decoder makes, of a possible output file, a pair with a key that no map emitted, some run is done with output that no sequential run writes |
| MrReread.NullWordBreaks | src/mr/worker.go:184-191 | one file with the one word "null" and a decoder that reads JSON's null as a pair of empty strings: such a run |
| ShardBalance.MoveLowersEnergy | src/shardkv1/shardcfg/shardcfg.go:141-153 | each move lowers the sum of squared loads, so the loop ends |
| ShardBalance.BalanceBalances | src/shardkv1/shardcfg/shardcfg.go:122-154 | from any assignment every shard ends in an existing group and loads differ by at most one; without groups all are 0 |
| ShardBalance.BalanceIdempotent | src/shardkv1/shardcfg/shardcfg.go:122-154 | a balanced assignment is left alone |
| ShardBalance.LeaveMovesOnlyOrphans | src/shardkv1/shardcfg/shardcfg.go:215-221 | when groups leave, a shard moves exactly if its group left |
| ShardBalance.JoinMovesOnlyToNew | src/shardkv1/shardcfg/shardcfg.go:207-213 | when groups join, shards move only from old groups to new ones |
| ShardBalance.JoinMovesLeast | src/shardkv1/shardcfg/shardcfg.go:207-213 | one group joining n moves exactly floor(N/(n+1)) shards, and no balanced assignment is closer |
| ShardBalance.EveryGroupServes | src/shardkv1/shardcfg/shardcfg.go:229-236 | with no more groups than shards, the groups with shards are exactly the groups |
| ShardOrder.JoinInOrder | src/shardkv1/shardcfg/shardcfg.go:80-154 | when groups join balanced ones: of one group's shards the lowest move, of equally full groups the lower gid gives first, of new groups the lower gid receives first |
| ShardOrder.FirstJoinDeals | src/shardkv1/shardcfg/shardcfg.go:130-138 | when groups join and no shard is in any of them, shard i goes to group i modulo their number, in ascending order of gid |
| ShardSearch.RebalanceRight | src/shardkv1/shardcfg/shardcfg.go:122-154 | with at most 257 shards for each group the program, sentinel included, computes the balancing function |
| ShardSearch.TooManyShards | src/shardkv1/shardcfg/shardcfg.go:86-108 | with more, from every assignment in which no group has more than 257 shards, some shard ends in no group |
| ShardSearch.FarTooManyShards | src/shardkv1/shardcfg/shardcfg.go:122-154 | with more than 258 shards for each group this happens from every assignment |
| ShardSearch.NeverLevel | src/shardkv1/shardcfg/shardcfg.go:140-153 | for every set of groups with the gid -1 and at least 257 shards for each group and two more, there is an assignment from which the loop goes on without changing anything |
| ShardSearch.RebalanceRightIff | src/shardkv1/shardcfg/shardcfg.go:122-154 | for every set of groups without the gid -1, the program is right for every assignment of n shards exactly if n is at most 257 times the number of groups, or there are no groups |
| ShardSearch.TwelveShards | src/shardkv1/shardcfg/shardcfg.go:122-154 | with the repository's 12 shards and any groups, every shard ends in an existing group and loads differ by at most one; without groups all are 0 |
| ShardConfig.ShardConfig.constructor | src/shardkv1/shardcfg/shardcfg.go:44-49 | no groups, all shards at 0 |
| ShardConfig.ShardConfig.SortedGroups | src/shardkv1/shardcfg/shardcfg.go:92-98 | all gids in ascending order, whatever order the map yields |
| ShardConfig.ShardConfig.CountLoads | src/shardkv1/shardcfg/shardcfg.go:81-84 | the number of shards of each gid |
| ShardConfig.ShardConfig.Analyze | src/shardkv1/shardcfg/shardcfg.go:80-111 | the fullest and the emptiest group, lowest gid first, with their loads; -1 and 257 instead of the emptiest exactly if every group has 257 shards or more |
| ShardConfig.ShardConfig.LeastGroup | src/shardkv1/shardcfg/shardcfg.go:115-118 | the emptiest group with the lowest gid, or -1 if every group has 257 shards or more |
| ShardConfig.ShardConfig.Rebalance | src/shardkv1/shardcfg/shardcfg.go:122-154 | in place, for any number of shards, what the program's function of shards and gids yields, so nothing else matters; with up to 257 shards for each group this is the balanced assignment |
| ShardConfig.ShardConfig.Join | src/shardkv1/shardcfg/shardcfg.go:156-183 | succeeds exactly if no gid is present and no server shared, and then adds the groups; it is refused only over a present gid, fatal only over a shared server or no group at all, and then has added some groups that clash with none |
| ShardConfig.ShardConfig.Leave | src/shardkv1/shardcfg/shardcfg.go:185-205 | succeeds exactly if the gids are present, distinct and some, and then removes them; it is fatal exactly without gids, and refused at the first that is absent, having removed those before it |
| ShardConfig.ShardConfig.JoinBalance | src/shardkv1/shardcfg/shardcfg.go:207-213 | a successful join adds the groups and rebalances, with up to 257 shards for each group to the one balanced configuration, and with 12 shards always evenly over the groups; a failed one leaves shards and number |
| ShardConfig.ShardConfig.LeaveBalance | src/shardkv1/shardcfg/shardcfg.go:215-221 | a successful leave removes the groups and rebalances, with up to 257 shards for each group to the one balanced configuration, and with 12 shards always evenly over the groups that are left; a failed one leaves shards and number |
| ShardConfig.ShardConfig.IsMember | src/shardkv1/shardcfg/shardcfg.go:229-236 | true exactly if the group has a shard |
| ShardConfig.ConfigurationSafety | src/shardkv1/shardcfg/shardcfg.go:156-236 | after any successful changes: balanced, server lists disjoint, members exactly the groups when there are between 1 and N |
| ShardConfig.ChangesMoveLittle | src/shardkv1/shardcfg/shardcfg.go:207-221 | along any run, joins move only to new groups and of one group the lowest shards, and leaves move only orphans |
| Crawler.CrawlComplete | lecutures/crawler.go:17-29 | a closed set of reachable urls with the root, each logged once, is a complete crawl |
| Crawler.SerialCrawler.Serial | lecutures/crawler.go:17-29 | a call fetches, once each, only urls reachable from its own, and follows all their links |
| Crawler.CrawlSerially | lecutures/crawler.go:17-29 | from nothing: every reachable url exactly once and nothing else |
| CrawlerChannel.Yield | lecutures/crawler.go:76-83 | workers that fetch in any order and at any time keep the crawl's invariant and the number of undelivered lists |
| CrawlerChannel.Receive | lecutures/crawler.go:88-88 | the coordinator receives the starter's list or that of some page fetched, and one list fewer is undelivered |
| CrawlerChannel.StartWorkers | lecutures/crawler.go:89-95 | every url of the list is known, each new one has one worker and is counted, and 2·unfetched + n does not grow |
| CrawlerChannel.Coordinator | lecutures/crawler.go:85-101 | the count is the number of undelivered lists whenever it waits; the loop ends, and only when none is outstanding |
| CrawlerChannel.ConcurrentChannel | lecutures/crawler.go:103-109 | every reachable url exactly once and nothing else, and no goroutine is left |
| CrawlerMutex.FetchState.TestAndSet | lecutures/crawler.go:40-46 | answers whether the url was marked, and marks it |
| CrawlerMutex.WaitsStep | lecutures/crawler.go:57-65 | every step keeps: a wait group counts the children that have not returned, and their parent has not either |
| CrawlerMutex.FetchedOnceStep | lecutures/crawler.go:49-56 | every step keeps: a marked url was fetched once or is being fetched by exactly one thread |
| CrawlerMutex.CrawlsAll | lecutures/crawler.go:49-66 | in every interleaving, when the first call returns every reachable url was fetched exactly once, nothing else, and all goroutines have returned |
| CrawlerMutex.NeverStuck | lecutures/crawler.go:49-66 | until then some goroutine can move |
| CrawlerMutex.CrawlEnds | lecutures/crawler.go:49-66 | all schedules are shorter than one bound |
| CrawlerMutex.FetchesAtOnce | lecutures/crawler.go:57-65 | two links of a page can be in the middle of their fetch at the same time |
| Demux.CallMap.constructor | src/tester1/demux/callmap.go:15-17 | open and empty |
| Demux.CallMap.Close | src/tester1/demux/callmap.go:19-25 | sets the flag and nothing else |
| Demux.CallMap.IsClosed | src/tester1/demux/callmap.go:27-32 | reads the flag |
| Demux.CallMap.Put | src/tester1/demux/callmap.go:34-43 | registers unless closed |
| Demux.CallMap.Remove | src/tester1/demux/callmap.go:45-54 | takes the call off and returns its channel, or says there is none |
| Demux.CallMap.Outstanding | src/tester1/demux/callmap.go:56-65 | every registered tag once |
| DemuxProof.InvStep | src/tester1/demux/dmxclnt.go:49-111 | every step of callers, reader, server, connection and Close keeps the invariant |
| DemuxProof.NoLostReply | src/tester1/demux/dmxclnt.go:58-101 | no reply without its call; every answer is the server's only reply to that request, or the failure; when the reader has stopped no registered call is unanswered |
| DemuxProof.ReaderNeverBlocked | src/tester1/demux/dmxclnt.go:58-64 | a caller that is handed an answer has had none and is waiting or will be after its next step |
| DemuxProof.NoneAfterSnapshot | src/tester1/demux/dmxclnt.go:66-81 | after the list of registered calls is taken none is added: those left are exactly those still to be failed |
| DemuxProof.LaterRun | src/tester1/demux/dmxclnt.go:83-101 | an answer is final, and a registered call stays so until it is answered |
| DemuxProof.ExactlyOneReply | src/tester1/demux/dmxclnt.go:58-101 | a call registered at any moment is answered by the time the reader has stopped, with its own reply or the failure |
| DemuxProof.FailureAnswersAll | src/tester1/demux/dmxclnt.go:66-81 | if the connection fails, the reader ends within three steps per registered call and five, having answered all |
| DemuxDelivery.FailedOnlyAfterError | src/tester1/demux/dmxclnt.go:66-81 | in every run, as long as the reader reads, and always if no read failed, every answer is the server's reply to that request and none is the failure |
| DemuxDelivery.CallSucceeds | src/tester1/demux/dmxclnt.go:58-101 | after any run, while the reader reads and nobody closed, a call with any request can be answered with any reply of the server in seven steps that change nothing else |
| DemuxDelivery.LostRequestFails | src/tester1/demux/dmxclnt.go:66-101 | a call whose request is lost is answered with the failure once a read fails |
| DemuxDelivery.CloseRefuses | src/tester1/demux/dmxclnt.go:83-111 | a call is refused only after Close or a failed read, and from then on every call that had not registered is |

## Left out

- Raft, the replicated state machine, kvraft and the sharded server: their files are stubs without behaviour.
- Gob and JSON encoding, reflection, sockets, process start-up, names of temporary files: records are handed over as they are.
- Real time: sleeps are dropped and clocks are arguments; random temporary suffixes are taken not to be task numbers.
- Fairness: no promise that a lock is eventually acquired or a message eventually delivered; instead, that nothing is stuck (AcquireAlone, ReleaseAlone, JobCanFinish, NeverStuck, FailureAnswersAll).
- The client programs of the tests: of them only the counting claim is stated, for clients that do anything.
- Crash and restart of the key/value server, whose state is in memory only.
- Wrap-around of 64-bit versions and 32-bit tags.
- Rebalance: demands that no group has the gid -1 or that there are at most 257 shards for each group and one more, because otherwise, and only then, it may not end (NeverLevel); JoinBalance and LeaveBalance demand it of the groups after the change.
- EveryRunLinearizable: demands that no late handler writes after its call returned and, for the exact specification, that no Put that answered ErrNoKey was written. Without either there are histories that nothing explains (LateHandlerBreaksOrder, RefusedWriteBreaksOrder), but the condition is sufficient only (UnseenLateWrite): which of the other histories have an explanation depends on what was read.
- The checker that searches for an order: the specification and its partition by key are modelled, the search is not.
- Demux.Next: messages may be delivered in any order and lost one by one, which covers a connection that keeps order and fails as a whole; a partly written message counts as lost.
- CrawlerMutex.Returned: the return of a goroutine and its call of the wait group's Done are one step.
- The hash function itself, the test harness, the annotation and configuration code, the plug-in applications and the lecture fragments on goroutines and deadlock.
