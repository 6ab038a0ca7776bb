# Verified model of the load generator

This project models the parts of the load generator whose correctness depends on interleavings,
accumulated state or machine arithmetic, and proves what they promise over every run. Check it with
`dafny verify dfyconfig.toml`.

## What is modelled

**The nonce-ordered send path** (`sender/txs_queue.go`, `sender/sharded_sender.go`, `utils/mutex.go`).
`QueueSpec` gives each critical section of the queue as a function on values, with the representation
invariant. `TxsQueue` is the queue as the object it is, and each of its methods is proved against that
function. `QueueFifo` proves that the queue is one FIFO per account, and `ReadyOrder` that ready accounts are
served in the order in which they became ready. `Watch` is the monitor: a lock, an
epoch for the `updated` channel, sleepers that hold an epoch, and every interleaving of locking, testing,
sleeping, signalling, assigning, waking and giving up; `WatchCalls` follows every call from its entry to its end
and shows that calls take effect one at a time. `SendProtocol` is the send loop with any number of
tasks and a chain that accepts a transaction exactly when its nonce is the sender's pending nonce, and
that may fail any call before or after the call took effect. `ShardedSender` is the task's body as code,
proved to take steps of that machine. `NonceSync`, `FlushProgress` and `FairFlush` prove self-stabilisation,
termination and the end of Flush over all of its runs; `OneGenerator` splits the generator's read of a nonce
from its push; `RegisteredSends` follows what the tasks hand to the inclusion tracker.

**Structured concurrency** (`utils/scope/start.go`): `ScopeRun` is the machine of interleavings and what Run
returns, `ScopeCancel` when the context is cancelled and that every task runs, `Scope` the object whose methods
take the machine's steps.

**The block writer** (`sender/writer.go`): `TxsWriter` (the object), `Packing` (conservation, the gas limit,
optimality) and `GeneratedNonces` (the writer driven by the generator).

**The inclusion tracker** (`stats/inclusion_tracker.go`): `InclusionTracker` (the object),
`InclusionConservation` (what became of every registration, and when the documented law holds) and `ReapTiming`
(when entries expire).

**Workload scheduling** (`generator/generator.go`, `types/account_pool.go`): `Generator`, over the weighted
lists of `WeightedList`.

**Weighted operations** (`config/operation.go`): `OperationPicker`. **Checked casts** (`utils/math.go`): `SafeCast`.

**Contracts and funding**: `Erc721` (`generator/contracts/ERC721.sol`) with `Erc721History`, what its storage
says of the calls so far; `Disperse`
(`generator/contracts/Disperse.sol`) and `Funder` (`funder/funder.go`) with the batches of the one driving
the loop of the other.

`LoadTypes` and `MapSum` hold shared values and sums over maps. A `uint64` is a number below 2^64, and its
addition wraps where the source's does; a `uint256` is checked, as Solidity 0.8 checks it. Calls into the
network, the file system, clocks and random sources are parameters: whether they succeed and what they return.

## What the code does not quite promise

- The queue keeps its invariant exactly until it accepts nonce 2^64-1, which wraps `nextNonce` to 0; three
  operations from a new queue get there (`QueueSpec.PushInv`, `QueueSpec.PushWrapWitness`, `QueueFifo.QueueRefinesFifo`).
  EIP-2681 keeps that nonce off a chain.
- The bound on sends with a wrong nonce holds for exactly the accounts that are tracked: others are never
  resynchronised (`NonceSync.StabilisesIff`).
- `scope.Run` is documented to return the first error any task returned. It returns the first to reach the
  error field, and a task that returned later can get there first. The documented result holds for exactly the
  ways to fail in which different tasks share one error, so always when only one task can fail
  (`ScopeRun.FirstFailurePromise`).
- The writer compares a sum of gas that can wrap. Blocks keep to `gasPerBlock` in every run of fitting
  transactions exactly when `gasPerBlock` is below 2^63 (`Packing.WithinLimitIff`).
- The tracker documents registered = included + expired + in flight. A registration under a hash that is in
  flight replaces the entry without counting it. The law holds in every interleaving exactly when no hash is
  registered twice or the cap is 1, so always for distinct hashes (`InclusionConservation.DocumentedLawIff`,
  `InclusionConservation.RegisteredTwice`), and so for whatever the sender registers as long as nobody outside takes
  an account's nonce back (`RegisteredSends.SenderKeepsLaw`, `RegisteredSends.RegisteredAgain`).
- A transaction that reaches the chain although its call failed is never registered, so the tracker does not see it
  included (`RegisteredSends.LandedUnregistered`).
- Minting an owned token again leaves its approval, so whom the old owner approved can take the token from the
  new one (`Erc721History.ApprovalOutlivesOwner`).
- Funding brings every account of the pool to the target unless the root account is in the pool and what it
  paid out took it below the target (`Funder.TargetMet`, with an example in `Funder.TargetMissed`).

## Model

| member | source | states |
|---|---|---|
| `QueueSpec.InitInv` | sender/txs_queue.go:63-72 | a new queue satisfies the representation invariant |
| `QueueSpec.PushInv` | sender/txs_queue.go:129-155 | Push keeps the invariant (stored keys are exactly firstNonce up to nextNonce per account, ready flag iff once in the ready queue, size within capacity) exactly when it does not accept nonce 2^64-1 |
| `QueueSpec.PushWrapWitness` | sender/txs_queue.go:145 | from a new queue, a push, a hand-out and a Reset to 2^64-1 reach a state that satisfies the invariant and accepts that nonce, and the increment of nextNonce then loses it |
| `QueueSpec.ReadyCanPop` | sender/txs_queue.go:118-122 | in every queue with a ready account, the state and the transaction PopReady dereferences exist |
| `QueueSpec.PopReadyInv` | sender/txs_queue.go:113-127 | PopReady keeps the invariant and makes the account it takes, which was not, outstanding |
| `QueueSpec.PopSentInv` | sender/txs_queue.go:74-90 | PopSent keeps the invariant and settles the account's outstanding hand-out |
| `QueueSpec.ResetInv` | sender/txs_queue.go:92-110 | Reset keeps the invariant, whatever the new nonce, and settles the account |
| `QueueSpec.SizeAfterReset` | sender/txs_queue.go:99-102 | Reset discards exactly the account's backlog from the stored transactions |
| `QueueSpec.SizeIsSumOfBacklogs` | sender/txs_queue.go:52-56 | the number of stored transactions is the sum over all accounts of nextNonce minus firstNonce |
| `QueueFifo.PushFifo` | sender/txs_queue.go:129-155 | Push appends an accepted transaction to its sender's FIFO and touches no other, unless the increment of nextNonce wraps |
| `QueueFifo.PopFifo` | sender/txs_queue.go:113-127 | PopReady hands out the oldest transaction of an account that has none in hand, and removes nothing |
| `QueueFifo.PopSentFifo` | sender/txs_queue.go:74-90 | PopSent removes the oldest transaction of the one account, exactly when it was in hand |
| `QueueFifo.ResetFifo` | sender/txs_queue.go:92-110 | Reset empties the one account's FIFO and hand, and touches no other |
| `QueueFifo.QueueRefinesFifo` | sender/txs_queue.go:74-155 | every sequence of operations keeps the invariant all along iff no push accepts nonce 2^64-1; then for every account, within an epoch accepted transactions have contiguous nonces, PopReady returns them in order, each once, at most one ahead of what was settled, and only Reset discards any |
| `ReadyOrder.ReadyMeans` | sender/txs_queue.go:74-155 | the accounts in the ready queue are exactly those with a stored transaction and none handed out and unsettled |
| `ReadyOrder.FirstReadyFirstServed` | sender/txs_queue.go:83-85 | over any operations, the accounts handed out followed by those still ready are those ready at the start followed by those that became ready, in that order |
| `ReadyOrder.ServedInTurn` | sender/txs_queue.go:113-127 | bounded waiting: whatever pushes, settlements and resets come between, the account at place k of the ready queue is the (k+1)-th to be handed out, and at place k minus the number handed out until then |
| `ReadyOrder.EveryoneInBetween` | sender/txs_queue.go:83-85 | between two hand-outs of one account, every account that was ready at the first is handed out |
| `ReadyOrder.RunServesInTurn` | sender/txs_queue.go:63-155 | bounded waiting from every state a new queue can reach |
| `ReadyOrder.StoredExactly` | sender/txs_queue.go:129-155 | a push stores its transaction, under its sender and nonce and without touching another, exactly when there is room and it carries the nonce the queue reports; otherwise nothing changes |
| `TxsQueues.Queue.Push` | sender/txs_queue.go:37-40 | appends to the ready queue's contents |
| `TxsQueues.Queue.Pop` | sender/txs_queue.go:42-50 | removes and returns the first of the ready queue's contents |
| `TxsQueues.Queue.Len` | sender/txs_queue.go:33-35 | the number of elements in the ready queue |
| `TxsQueues.WatchCtrl.Updated` | utils/mutex.go:203-206 | closes the current channel and starts the next epoch |
| `TxsQueues.TxsQueue.PopSent` | sender/txs_queue.go:74-90 | the object changes as the specification function says, and signals exactly when the account was outstanding |
| `TxsQueues.TxsQueue.Reset` | sender/txs_queue.go:92-110 | the deleting loop leaves exactly the specified state, and signals exactly when the account is known and not ready |
| `TxsQueues.TxsQueue.PopReady` | sender/txs_queue.go:113-127 | sleeps on the current epoch exactly while no account is ready; otherwise returns the head transaction of the first ready account and signals |
| `TxsQueues.TxsQueue.Push` | sender/txs_queue.go:129-155 | sleeps exactly while the queue is full, drops a transaction with an unexpected nonce, and signals only for one that becomes its account's head |
| `TxsQueues.TxsQueue.WaitUntilEmpty` | sender/txs_queue.go:157-162 | is done exactly when no account has a backlog |
| `TxsQueues.TxsQueue.Nonce` | sender/txs_queue.go:164-171 | the nonce the next accepted transaction of the account must carry |
| `Watch.BodySignals` | utils/mutex.go:190-206 | a critical section that makes some waiter's false predicate true signals, for all three predicates of the queue, and keeps the queue's invariant unless it accepts nonce 2^64-1 |
| `Watch.StepKeepsPromise` | utils/mutex.go:178-206 | at every step, a sleeper on the current epoch whose predicate the running section will make true still has a signal coming |
| `Watch.NoLostWakeup` | utils/mutex.go:178-206 | in every run, whenever the lock is free, a sleeper whose predicate is true can wake |
| `Watch.MutualExclusion` | utils/mutex.go:214-220 | in every run, at most one goroutine is between taking and releasing the lock |
| `Watch.FreesExactly` | sender/txs_queue.go:74-162 | the exact condition under which each operation ends each kind of wait |
| `Watch.SignalsIff` | sender/txs_queue.go:74-155 | the exact condition under which each operation signals |
| `WatchCalls.CallsAreKept` | utils/mutex.go:190-200 | in every run a call that has entered is still waiting for the lock, testing or asleep until its predicate was seen true under the lock or its context was done; no wake-up drops it |
| `WatchCalls.LeavesByRelease` | utils/mutex.go:214-220 | a goroutine leaves a method only by releasing the lock, with all of its section done or its context done |
| `WatchCalls.OneAtATime` | utils/mutex.go:208-220 | in every interleaving, the queue once the running section is done is what the calls that passed make of it one after the other, in the order in which they passed, each from a state in which its predicate holds |
| `WatchCalls.FreeMeansWhole` | utils/mutex.go:208-220 | whenever nobody holds the lock, no section is half done |
| `WatchCalls.OneByOneIsARun` | sender/txs_queue.go:74-162 | so every theorem about sequences of queue operations holds under every interleaving |
| `WatchCalls.SleepersReason` | utils/mutex.go:190-200 | with the lock free and no wake-up coming, a sleeping Push means a full queue, a sleeping PopReady that every account with a stored transaction has one out, a sleeping Flush that something is stored; PopSent and Reset never sleep |
| `WatchCalls.WanterCompletes` | utils/mutex.go:190-200 | a call whose predicate is true, with the lock free, takes the lock, runs its whole section and leaves with its effect done |
| `WatchCalls.WokenCompletes` | utils/mutex.go:178-200 | a woken sleeper whose predicate is true tests it again, and leaves with the effect of its call done |
| `WatchCalls.ExpiredQuits` | utils/mutex.go:178-200 | a sleeper whose context is done retakes the lock, leaves, and changes nothing |
| `SendProtocol.DispatchInv` | sender/sharded_sender.go:92-97 | a hand-out goes to an account no other task holds, and keeps the protocol's invariant |
| `SendProtocol.SettleInv` | sender/sharded_sender.go:110-130 | settling by PopSent or Reset releases the account and keeps the protocol's invariant |
| `SendProtocol.OneTaskPerAccount` | sender/sharded_sender.go:87-133 | in every run, the accounts with an outstanding transaction are exactly those some task holds, one task each, holding the account's oldest transaction |
| `NonceSync.StepSync` | sender/sharded_sender.go:97-131 | each step's sends with a wrong nonce are paid for by closing the gap to the chain, or by a change of the nonce from outside |
| `NonceSync.SelfStabilising` | sender/sharded_sender.go:97-131 | in every interleaving, a tracked account's sends with a wrong nonce number at most the outside changes plus one, and without that one if the chain's nonce starts at 0 |
| `NonceSync.InSyncAfterRead` | sender/sharded_sender.go:54-68 | after the chain's nonce was read, and until it changes from outside, no send is wrong and an account no task holds has the chain's nonce as its next |
| `NonceSync.UntrackedMissesUnbounded` | sender/sharded_sender.go:112-115 | any untracked account can send a wrong nonce any number of times without an outside change |
| `NonceSync.StabilisesIff` | sender/sharded_sender.go:97-131 | the bound, over all capacities, chains and interleavings, holds for an account iff it is tracked |
| `FlushProgress.NeverStuck` | sender/txs_queue.go:74-127 | while transactions are stored and no task gave up, some productive step can be taken |
| `FlushProgress.StepWork` | sender/sharded_sender.go:87-133 | every step but a push leaves the work no larger, and a productive one makes it smaller |
| `FlushProgress.FlushTerminates` | sender/sharded_sender.go:50-52 | without pushes at most four productive steps per stored transaction are possible, and a run with none left and no task that gave up has emptied the queue |
| `FairFlush.FairRunFlushes` | sender/txs_queue.go:157-162 | on every infinite run without pushes in which the loop and every task act eventually and lookups succeed eventually, and no task gives up, the queue becomes and stays empty |
| `OneGenerator.DropsBounded` | generator/generator.go:189-198 | with one generator, which reads a nonce and pushes later, an account's dropped pushes number at most its Resets and drains, in every interleaving |
| `OneGenerator.DroppedIffStale` | sender/txs_queue.go:140-144 | a push is dropped exactly when the queue's nonce for its account changed since it was read |
| `OneGenerator.RunsProtocol` | sender/sharded_sender.go:42-48 | every run with one generator is a run of the send protocol |
| `RegisteredSends.RegisteredOnce` | sender/sharded_sender.go:125-129 | unless an outside change takes a nonce back, no sender and nonce is registered for inclusion twice, whatever the faults and resets |
| `RegisteredSends.RegisteredAgain` | sender/sharded_sender.go:125-129 | a run in which an outside change takes a nonce back and the same sender and nonce are registered twice |
| `RegisteredSends.RegisteredAreSucceeded` | sender/sharded_sender.go:112-129 | success being the chain accepting the transaction without a fault: in every run only transactions whose send succeeded are registered, each success is registered or its task is still about to, and the numbers agree |
| `RegisteredSends.LandedUnregistered` | sender/sharded_sender.go:112-129 | a run in which a transaction takes effect on the chain, its call is reported failed, and it is not registered for inclusion |
| `RegisteredSends.SenderKeepsLaw` | stats/inclusion_tracker.go:56-58 | the tracker's documented law holds for what the sender registers, in any order and interleaving with blocks and sweeps, unless an outside change takes a nonce back |
| `ShardedSenders.EthClient.Send` | sender/sender_test.go:287-314 | the chain accepts exactly the sender's pending nonce, and reports success only if the call did not fail |
| `ShardedSenders.ShardedSender.GetNonce` | sender/sharded_sender.go:54-68 | failed lookups are retried until one succeeds or the context is done |
| `ShardedSenders.ShardedSender.Dispatch` | sender/sharded_sender.go:92-97 | one turn of the loop sleeps or is the machine's dispatch step |
| `ShardedSenders.ShardedSender.SendTask` | sender/sharded_sender.go:97-131 | the task's body is a run of the machine's steps of that task: the transaction is registered exactly when it is signed, carries the chain's nonce and meets no fault; settled by PopSent if sent, settled by PopSent if untracked, by Reset after a successful lookup otherwise, and an error if signing fails or no lookup succeeds |
| `ScopeRun.StepCounts` | utils/scope/start.go:29-47 | the two counters are the unfinished tasks and the main tasks not yet out of the main group, also between the two Adds of Spawn |
| `ScopeRun.RunWaitsForEveryTask` | utils/scope/start.go:142-155 | Run returns only when every task ever spawned, by main or background tasks, has finished, with the context cancelled |
| `ScopeRun.RunResult` | utils/scope/start.go:49-59 | Run returns nil iff no task returned an error and none was handed to Cancel; otherwise the first error to reach the error field |
| `ScopeRun.FailureCancels` | utils/scope/start.go:29-37 | whenever a task that returned an error has finished, the context is cancelled |
| `ScopeRun.FirstFailurePromise` | utils/scope/start.go:142-155 | the documented result, the first error any task returned, holds in every run for a set of (task, error) failures iff the failures of different tasks carry the same error |
| `ScopeRun.OneTaskResult` | utils/scope/start.go:49-59 | when all failures of a run are one task's, Run returns the first of them |
| `ScopeRun.Overtaken` | utils/scope/start.go:39-47 | for any two failures of different tasks, a run in which the later one is returned in place of the earlier one |
| `ScopeCancel.NoEarlyCancel` | utils/scope/start.go:39-47 | in every run the context is cancelled only after a task failed or called Cancel, or the given context was cancelled, or once every main task had left the main group, by the tasks' own places |
| `ScopeCancel.CancelledExactly` | utils/scope/start.go:142-155 | a failure, a Cancel, the given context's cancellation and the end of the main group all cancel the context, nothing else does, and it stays cancelled |
| `ScopeCancel.CancelCancels` | utils/scope/start.go:49-59 | once a call of Cancel with an error has returned, the context is cancelled |
| `ScopeCancel.RunWaitsForMain` | utils/scope/start.go:151 | Run gets past waiting for the main group only if at some time every main task had left it |
| `ScopeCancel.EveryTaskRuns` | utils/scope/start.go:142-144 | every task that was spawned, also after the cancel, has run to its return when Run returns |
| `ScopeCancel.RunCanReturn` | utils/scope/start.go:147-155 | when every task has finished, Run has returned or has a step to take |
| `Scopes.ScopeObject.SpawnBg` | utils/scope/start.go:29-37 | counts the new background task, as the machine's step does |
| `Scopes.ScopeObject.Spawn` | utils/scope/start.go:41-47 | the two Adds, in their order, are the machine's two steps |
| `Scopes.ScopeObject.Cancel` | utils/scope/start.go:49-59 | keeps the first error and cancels, as the machine's steps do |
| `Scopes.ScopeObject.Finish` | utils/scope/start.go:29-47 | after the task's function: a main task leaves the main group before its error is reported, and the group of all tasks last |
| `TxsWriters.TxsWriter.Send` | sender/writer.go:48-65 | the object changes as the specification function says: flush first if the gas would exceed the limit, and append only if the flush succeeded |
| `TxsWriters.TxsWriter.Flush` | sender/writer.go:78-127 | writes the block, clears the buffer and advances height and count, on errors too, and reports max blocks after writing |
| `Packing.CallAllConserves` | sender/writer.go:48-127 | over every sequence of Send and Flush: files, then the one block lost to a file error that ended the run, then the buffer hold the accepted transactions in order, heights are consecutive, and the max-blocks error comes at flush number numBlocks + 1, after that block is written |
| `Packing.WrittenBlocks` | sender/writer.go:32-46 | from a new writer, file i has height startHeight + i, and there are at most numBlocks files without, and numBlocks + 1 with, the max-blocks error |
| `Packing.SendWithinLimitIff` | sender/writer.go:52-59 | one Send keeps the open block within the limit iff the transaction fits in a block and the sum compared does not wrap |
| `Packing.WithinLimitIff` | sender/writer.go:51-57 | every block of every run, of Sends and Flushes of fitting transactions, keeps the limit iff gasPerBlock is below 2^63 |
| `Packing.CountedGas` | sender/writer.go:52-59 | the gas counted for the open block never exceeds its true gas, so a block is closed only when it is really full |
| `Packing.GreedyIsOptimal` | sender/writer.go:49-65 | for fitting transactions, files and open (or lost) block are no more numerous than the blocks of any order-preserving packing of the same transactions, for every gasPerBlock |
| `GeneratedNonces.GeneratedCountsUp` | sender/writer.go:67-72 | at any time the writer's nonce for an account is the number of its tracked transactions accepted so far, modulo 2^64 |
| `GeneratedNonces.OutputNonces` | generator/generator.go:151-201 | in the blocks written by prewarming, its Flush and the generator, and in the open buffer, each tracked account's nonces read 0, 1, 2, ..., also after a file error |
| `InclusionSpec.SweepOrder` | stats/inclusion_tracker.go:280-287 | a sweep expires exactly the entries that are old enough, in whatever order the map is visited |
| `InclusionSpec.HeadsIncrease` | stats/inclusion_tracker.go:189-199 | of any heads that arrive, those that are matched are increasing, so no block is matched twice, and none that is higher than all before it is skipped |
| `InclusionTrackers.InclusionTracker.constructor` | stats/inclusion_tracker.go:86-104 | starts empty, with the defaults for a cap or a period of 0 and below |
| `InclusionTrackers.InclusionTracker.Register` | stats/inclusion_tracker.go:114-129 | inserts, replacing an entry under the same hash, or counts a drop at the cap |
| `InclusionTrackers.InclusionTracker.MatchBlock` | stats/inclusion_tracker.go:203-248 | stamps, counts and removes each in-flight hash of the block once; a failed fetch changes nothing |
| `InclusionTrackers.InclusionTracker.ProcessHead` | stats/inclusion_tracker.go:189-199 | a head not past the last one seen is ignored; any other is matched and becomes the last seen |
| `InclusionTrackers.InclusionTracker.Reap` | stats/inclusion_tracker.go:276-294 | removes and counts exactly the entries registered at least reapAfter ago |
| `InclusionConservation.Conservation` | stats/inclusion_tracker.go:306-317 | over any interleaving the summary accounts for every registration: attempts = included + expired + in flight + dropped + replaced, each of these numbers counts the attempts that met that fate, and in flight never exceeds the configured cap (10000 by default) |
| `InclusionConservation.DroppedExactlyAtCap` | stats/inclusion_tracker.go:114-129 | in every reachable state a registration is dropped exactly when as many transactions as the configured cap are in flight, and else is in flight with its own time |
| `InclusionConservation.NoReplacements` | stats/inclusion_tracker.go:117-125 | when no hash is registered twice, or the cap is 1, nothing is ever replaced |
| `InclusionConservation.DocumentedLawIff` | stats/inclusion_tracker.go:56-58 | for registrations of given hashes in a given order, the documented law holds in every interleaving iff the hashes are distinct or the cap is 1 |
| `InclusionConservation.RegisteredTwice` | stats/inclusion_tracker.go:124 | two registrations of one hash break the documented law |
| `InclusionConservation.TerminalOnce` | stats/inclusion_tracker.go:218-227 | a registration that was included, expired, dropped or replaced stays so whatever comes later, and its InclusionTime is that of the block that included it |
| `ReapTiming.ExpiryWindow` | stats/inclusion_tracker.go:257-288 | if ticks are at most gap apart, an entry expires at an age of at least reapAfter and below reapAfter + gap (twice reapAfter for an exact ticker), and nothing in flight gets older than that before the next tick is due; blocks may be matched, and locks taken, any time after their stamps |
| `AccountPools.AccountPool.NextIndex` | types/account_pool.go:22-28 | advances the cursor by one around the pool and returns it |
| `AccountPools.AccountPool.NextAccount` | types/account_pool.go:32-39 | a minted account leaves the cursor; otherwise the account at the advanced cursor |
| `Workload.SenderIsNotReceiver` | generator/generator.go:186-187 | whatever the pools and the turns before, an iteration that mints nothing and draws from at least two distinct accounts does not send to its own sender |
| `Workload.OnePoolDraws` | generator/generator.go:183-190 | with one pool and no minting, transaction i has sender 2i+1 and receiver 2i+2 modulo the pool's size |
| `Workload.MintedAreUsed` | types/account_pool.go:32-39 | a minted account is the one used, any other comes from the pool of the instance whose turn it is, and neither minting both nor the turns of other pools move a pool on |
| `Workload.PoolRotates` | types/account_pool.go:22-39 | for any instances, pools and minting, a pool's own accounts in a run are its accounts in rotation, from the second one on |
| `AccountPools.OddPoolRotates` | types/account_pool.go:22-28 | in a pool of odd size n, any n consecutive transactions have each account as sender exactly once |
| `AccountPools.EvenPoolHalves` | types/account_pool.go:22-28 | in a pool of even size exactly the accounts with an odd index ever send |
| `Workload.Build` | generator/generator.go:209-218 | the list is as long as the weights add up to and holds each of a set of different instances exactly its weight field's number of times, in order, and none of weight 0 or less |
| `Workload.Shuffle` | generator/generator.go:223-225 | whatever pairs are swapped, the list stays a permutation of itself |
| `Workload.ShuffleKeepsWeights` | generator/generator.go:223-225 | a list with each instance its weight's number of times is one after the shuffle as well |
| `Workload.Run` | generator/generator.go:181-203 | iteration i uses instance i modulo the list's length and the next two accounts of that instance's pool, for any number of pools, with any accounts minted, and with empty pools where all are |
| `Workload.WindowHonoursWeights` | generator/generator.go:183-185 | whatever the shuffle did, any window as long as the total weight picks each instance exactly its weight's number of times |
| `Workload.RunHonoursWeights` | generator/generator.go:181-203 | the same of the transactions a run of the loop generates |
| `OperationPickers.NewOperationSet` | config/operation.go:69-81 | succeeds iff at least one name is given and none twice, and keeps their order |
| `OperationPickers.SumInAnyOrder` | config/operation.go:115-125 | the weights add up to the same true sum in every order of names |
| `OperationPickers.Validate` | config/operation.go:107-131 | a mix is accepted iff absent, or all names are declared and the true sum of weights is above 0 and below 2^64; an overflow is reported only if the true sum is 2^64 or more, and iff so when all names are declared; the fault reported is the first in the order of names |
| `OperationPickers.Picker` | config/operation.go:149-174 | panics iff a name is undeclared or the true sum exceeds 2^64-1, and else builds a table of the list that repeats each name its weight's number of times in declared order |
| `OperationPickers.Select` | config/operation.go:177-188 | the scan of the table agrees with indexing that list at the draw, and returns the default without a draw when the total is 0 |
| `OperationPickers.SelectionIsExact` | config/operation.go:86-89 | of the draws below the total exactly mix[name] select name, and as the draw grows the names come in declared order |
| `SafeCasts.MinMax` | utils/math.go:14-26 | for every width and signedness the shifted and complemented bounds are the type's least and greatest values |
| `SafeCasts.SafeCastExact` | utils/math.go:28-36 | for every pair of types a cast succeeds iff the value is in the target's range, and then returns it unchanged |
| `SafeCasts.ClampNearest` | utils/math.go:38-48 | for every pair of types the result is the target type's value nearest to the argument |
| `Erc721Contract.ERC721.SetApprovalForAll` | generator/contracts/ERC721.sol:82-85 | changes only the caller's operator entry |
| `Erc721Contract.ERC721.Approve` | generator/contracts/ERC721.sol:87-97 | sets the approval, or reverts unless the caller is the owner or its operator |
| `Erc721Contract.ERC721.TransferFrom` | generator/contracts/ERC721.sol:114-127 | moves the token and one unit of balance and clears the approval, or reverts with nothing changed |
| `Erc721Contract.ERC721.Mint` | generator/contracts/ERC721.sol:156-165 | credits the recipient and makes it the owner, also of an owned token, without debiting the old owner |
| `Erc721Contract.ERC721.Burn` | generator/contracts/ERC721.sol:167-186 | only the owner; debits it and clears owner and approval |
| `Erc721Laws.AccountSurplus` | generator/contracts/ERC721.sol:156-165 | in every reachable state an account's balance is its number of owned tokens plus the tokens minted away from it |
| `Erc721Laws.TotalSurplus` | generator/contracts/ERC721.sol:156-177 | in every reachable state the balances add up to the owned tokens plus the mints of owned tokens |
| `Erc721Laws.TransferReverts` | generator/contracts/ERC721.sol:114-121 | a transfer reverts exactly for one of its three requires or a recipient's full balance; the debit never underflows |
| `Erc721Laws.BurnReverts` | generator/contracts/ERC721.sol:167-186 | a burn reverts exactly when the caller is not the owner; the debit never underflows |
| `Erc721Laws.UnownedIsUntouchable` | generator/contracts/ERC721.sol:87-112 | nobody can approve or transfer a token nobody owns, and it has no approval |
| `Erc721History.OwnerIsLast` | generator/contracts/ERC721.sol:114-177 | after any calls a token's owner is the recipient of its last successful mint or transfer, and nobody after a burn |
| `Erc721History.OperatorIsLast` | generator/contracts/ERC721.sol:82-85 | an operator is whom the owner last made one, and no longer after the owner revoked it |
| `Erc721History.ApprovedIsLast` | generator/contracts/ERC721.sol:87-97 | the approved address is that of the last successful approval, and none after a later transfer or burn |
| `Erc721History.TransferHistory` | generator/contracts/ERC721.sol:104-127 | after any calls a transfer goes through exactly from the last owner, to someone that can take it, by the owner, an operator not revoked or the last approved; then the recipient owns the token and the approval is gone |
| `Erc721History.ApproveHistory` | generator/contracts/ERC721.sol:87-97 | an approval goes through exactly for the last owner and operators it has not revoked, and names the spender given |
| `Erc721History.BurnHistory` | generator/contracts/ERC721.sol:167-177 | a burn goes through exactly for the last owner, and leaves neither owner nor approval |
| `Erc721History.MintHistory` | generator/contracts/ERC721.sol:156-165 | a mint goes through for any recipient but address 0 with room in its balance, also of an owned token; the recipient owns the token and has one more, and the approval stays |
| `Erc721History.ApprovalOutlivesOwner` | generator/contracts/ERC721.sol:156-165 | a run in which whom the old owner approved takes a token that was minted again to someone else |
| `DisperseSpec.DisperseEffect` | generator/contracts/Disperse.sol:24-32 | exactly when a call succeeds, for any numbers of recipients and values, and what it then does to every account: each recipient its values, the sender the rest, the contract nothing |
| `DisperseSpec.DisperseConserves` | generator/contracts/Disperse.sol:24-32 | no money is made or lost |
| `Chains.Chain.DisperseEther` | generator/contracts/Disperse.sol:24-32 | the paying loop does what the specification function says, and a revert undoes all of it |
| `Funder.Unique` | funder/funder.go:113-119 | the same addresses, each once |
| `Funder.FilterUnderfunded` | funder/funder.go:121-149 | exactly the addresses below the amount, or an error iff some balance query fails |
| `Funder.PayBatches` | funder/funder.go:86-107 | success or not, the calls that went through are the accounts in order cut to the batch size, only the last one shorter; each account in them gets exactly the amount once, from the root, the contract is left empty, and all others are untouched |
| `Funder.GoesIff` | funder/funder.go:86-107 | all batches go through iff all are confirmed and the root has the first batch's value and the amount times the count |
| `Funder.FundAccounts` | funder/funder.go:38-111 | success exactly when no query, deployment or batch fails and the root can afford it; then each distinct account below the amount gets it once and nobody else moves but the root, which pays amount times count; the calls list those accounts, each once, in batches of the configured size, 200 by default, all full but the last |
| `Funder.TargetMet` | funder/funder.go:34-37 | after a success every input account has at least the amount, iff nothing was due or the pool contains neither the contract nor a root that paid itself below the amount |
| `Funder.TargetMissed` | funder/funder.go:34-37 | a successful funding after which the root, itself in the pool, is below the amount |

## Left out

- The account state of the queue is a value in the map, replaced on each change; the source updates it through a reference that only the map holds, so aliasing is not modelled.
- The positions of the ready queue, the epochs, the counters of the tracker, the generator's counter and the pool's cursor are unbounded; their wrap-around after 2^64 (or 2^63) steps is not modelled.
- Waiting inside WaitUntil (unlock, block, lock again) is steps of `Watch`; the methods of class `TxsQueue` are one turn of it, without a loop.
- FairFlush.FairRunFlushes: takes as its hypothesis that locks, channels, the scheduler and retried lookups are fair.
- NonceSync.SelfStabilising: for accounts whose pushed transactions are tracked; `NonceSync.StabilisesIff` shows that the bound fails for all others.
- The JSON and the bytes of the writer's files; a call after the run's first error, which the generator does not make.
- Packing.GreedyIsOptimal: for runs of Sends, because an explicit Flush closes a block that may still have room.
- Runs of `Watch` and `SendProtocol` end before a push would accept nonce 2^64-1.
- The send protocol and the scope interleave on values; their objects in `ShardedSender` and `Scope` run one method at a time.
- The rate limiter and the signing semaphore delay a task or end it with an error; the delay is not modelled.
- A call whose effect arrives after it was reported failed counts as a change of the chain's nonce from outside.
- RegisteredSends.SenderKeepsLaw: takes as its hypothesis that a transaction's hash fixes its sender and nonce.
- Dry runs, endpoint selection, collectors and logging of the sender.
- Spawn1, Join, named tasks, the debug guard and panics of wait groups that are reused too early.
- Metrics, latency samples, head-gap counts and the subscription of the inclusion tracker.
- safeTransferFrom with its callbacks, events, views and interface ids of the ERC-721 contract.
- Reading a missing owner or approval as address 0, and callers at address 0, follow the contract; the laws assume callers that are not address 0, as no transaction has that sender.
- The token and fixed-amount variants of Disperse, gas costs of the funding transactions, and recipients that are contracts.
- Which of several faults of a mix is reported first depends on the sorted order of names; the order is a parameter.
- Scenario generation, how pools and instances are built from the configuration, and minted accounts being new to everyone.
- Zipfian sampling, the ramp curve, gas pickers, storage sizing, and the ERC-20 fixtures that do not conserve by design.
- The open-loop dispatcher that sender/doc.go describes has no code to model.
