# Gevulot node: models and proofs

A Gevulot node admits transactions, schedules the programs they name in virtual
machines, turns results into new transactions, and talks to its peers. This project
models the state machines that carry that work and proves what they keep over every
run. `dafny verify dfyconfig.toml` checks all of it.

Where the node updates fields in place, the model is a class, and each of its methods
is proved to compute a function on values; the theorems are about those functions, for
every input, run or reachable state.

| files | what they model |
|---|---|
| `Basics`, `Transactions`, `MapSums`, `Subsequences` | shared vocabulary, payloads, sums over maps, order |
| `AdmissionModel`, `AdmissionNode` | the dependency pipeline: waiting maps, bounded caches over storage, the event loop |
| `AdmissionConservation`, `AdmissionShape`, `AdmissionOrder`, `AdmissionArrival`, `AdmissionRecency`, `AdmissionRefinement`, `AdmissionGuarantees` | its theorems: conservation, ordering, order of arrival, wake-ups, what the caches remember, and that they are invisible |
| `VmProvider` | context ids, control ports, the VM registry |
| `SchedulerModel`, `Scheduler` | scheduler, program manager, resource manager |
| `SchedulerInvariants`, `SchedulerTasks`, `SchedulerEffects`, `SchedulerPending` | resource balance, VM identity, task life cycle, reaping, what single operations do, bounded wait |
| `Ancestry`, `Workflow`, `TxTree` | parent links, the workflow engine, the transaction tree |
| `NodeTasks` | workflow engine and scheduler together |
| `Watchdog` | the health verdict against the event history |
| `NoiseCodec` | chunking, nonces and framing after the handshake |
| `PeerJoin` | joining the peer network through the peers' lists |

What the world answers is an input: clock readings, which saves fail, whether a VM
boots, dies or can be killed, elapsed times, the order of events, the files a VM writes.
Hashes are opaque numbers. The cipher is any pair of functions in which opening undoes
sealing under the same nonce and a seal adds 16 bytes.

Where the code does not do what one would expect, or what a comment says, the model
follows the code:

- A program cache with one slot loses wake-ups: a Deploy provides two programs before
  either is stored. Two slots are necessary and sufficient (`FaithfulIffTwoSlots`); the
  node has 50.
- A Run released by a Deploy while another of its programs is missing goes back to
  waiting after its children were taken out, so a child can be emitted before its Run
  (`AChildCanComeFirst`). `ParentsComeFirstIff` gives the exact condition.
- Children are released one level deep. A Verification that waits for a Proof which
  itself goes out as the child of its Run stays parked on an emitted transaction
  (`AGrandchildIsLeftWaiting`). `ChildrenLeftWaitingIff` says who is left waiting.
- The ProofKey branch of the workflow engine checks a bound that is one too small
  (`AProofKeyCanPanic`). `ProofKeyPanicsIff` says when it indexes past the workflow.
- A message that is too long for a frame uses up nonces before it is rejected
  (`InStepIffAllFit`).
- An unknown program drops the task queue of its transaction, and the program is put
  on the pending queue all the same.
- A VM whose process cannot be killed stays registered while its resources return. So
  does one whose start fails on a path that does not clean up; `cleaned` is false there.
- If every context id were taken, the search for one would not end. `AllocateCid` and
  the methods that start programs require a free id; the value-level step calls that
  case a failed start.
- A comment in the watchdog says that receiving always times out once the channel has
  been found closed. The code replaces the channel by one whose sender is dropped at
  once, so another receive reports a close again. The model admits any order of events.
- Joining a network of three or more members reports members as failed that are
  connected: whoever is heard of twice is dialed twice. `DoConnect` says who.
- A newcomer filters what it learns by its advertised or bind address, which need not
  be the one its peers see. A member whose address equals it is skipped
  (`AMemberCanBeMissed`); `DoConnect` says that this is the only way to leave somebody
  out.

## Model

| member | source | states |
|---|---|---|
| `Transactions.ValidatePrograms` | crates/node/src/types/transaction.rs:435-446 | the loop accepts a payload if and only if it is no Run or all its steps name different programs |
| `AdmissionConservation.Conservation` | crates/node/src/mempool/event.rs:224-382 | over every run from a fresh start, received = emitted + waiting for programs + waiting for parents + evicted, as multisets, for every capacity and every pattern of failing saves |
| `AdmissionConservation.RunHolds` | crates/node/src/mempool/event.rs:224-382 | the same copy by copy, from any state: emitted plus held afterwards equals held before plus received |
| `AdmissionConservation.HandleEventHolds` | crates/node/src/mempool/txvalidation/mod.rs:99-115 | one event, saves included, neither loses nor duplicates any transaction |
| `AdmissionConservation.EvictHolds` | crates/node/src/mempool/event.rs:475-492 | age eviction only moves transactions from the waiting map to the evicted ones |
| `AdmissionConservation.ParkHolds` | crates/node/src/mempool/event.rs:456-466 | parking adds exactly one copy of the parked transaction, whatever is evicted to make room |
| `AdmissionShape.AlwaysWellParked` | crates/node/src/mempool/event.rs:277-382 | in every reachable state only Runs wait for programs, each on one of its own, and only Proofs, ProofKeys and Verifications wait for parents, each on its own |
| `AdmissionShape.ProgramDepShape` | crates/node/src/mempool/event.rs:291-333 | a program check returns nothing exactly when a program is unknown; otherwise the transaction comes first and only Runs follow |
| `AdmissionShape.ParentDepFree` | crates/node/src/mempool/event.rs:352-381 | a parent check that goes through returns the transaction, unless it is a Run that must wait again, followed by exactly its waiting children |
| `AdmissionOrder.OrderedMeans` | crates/node/src/mempool/event.rs:313-331 | the inductive and the position-by-position definition of an ordered output are equivalent |
| `AdmissionOrder.DeployBeforeRun` | crates/node/src/mempool/event.rs:230-244 | for every run, capacity and pattern of failing saves, the output is ordered by programs, and everything known came from storage or an emitted Deploy |
| `AdmissionOrder.EveryRunFindsItsPrograms` | crates/node/src/mempool/event.rs:313-331 | each program of an emitted Run was stored at the start or belongs to a Deploy emitted strictly earlier |
| `AdmissionOrder.ParentDepOrder` | crates/node/src/mempool/event.rs:357-375 | one parent check emits in parent order if and only if it does not release the children of a Run that goes back to waiting and was not known or emitted before |
| `AdmissionOrder.ParentBeforeChildIff` | crates/node/src/mempool/event.rs:336-382 | over every run, for every capacity and every pattern of failing saves: parents come before children if and only if no Run is released while another of its programs is unknown and children wait for it |
| `AdmissionOrder.LeftWaitingIff` | crates/node/src/mempool/event.rs:357-364 | in every reachable state of the uncached pipeline, a key waited for is a known parent if and only if it went out as the child of another transaction |
| `AdmissionOrder.NoLostWakeUp` | crates/node/src/mempool/event.rs:291-331 | in every reachable state of the uncached pipeline the keys waited for and the known programs are disjoint |
| `AdmissionRefinement.LearnFirst` | crates/node/src/mempool/event.rs:452-454 | from a cache whose keys are all stored, remembering one key forgets nothing |
| `AdmissionRefinement.LearnSecond` | crates/node/src/mempool/event.rs:452-454 | with room for two, remembering a second key before the first is stored forgets nothing either |
| `AdmissionRefinement.HandleEventSimulates` | crates/node/src/mempool/txvalidation/mod.rs:102-115 | one event with successful saves keeps the simulation between cached and uncached pipeline and emits the same |
| `AdmissionRefinement.CacheRefinesSet` | crates/node/src/mempool/event.rs:224-273 | the simulation over every run: same output, waiting maps, evictions and clock readings |
| `AdmissionArrival.WaitersStandInOrder` | crates/node/src/mempool/event.rs:456-466 | in every run, what waits for a key is exactly the latest transactions parked on it, in the order they were parked, and the entry has the time of the first of them |
| `AdmissionArrival.ChildrenWaitInOrder` | crates/node/src/mempool/event.rs:461-465 | in every run the transactions waiting for one parent are a subsequence of those received |
| `AdmissionArrival.ChildrenLeaveInOrder` | crates/node/src/mempool/event.rs:357-375 | in every run the children that one event releases for a parent are a subsequence of those received before; the received transaction itself comes first |
| `AdmissionArrival.RunsWaitInOrder` | crates/node/src/mempool/event.rs:461-465 | in every run, for every capacity and every pattern of failing saves, Runs that name one program wait for it in the order they were received, even after waiting again |
| `AdmissionArrival.RunsLeaveInOrder` | crates/node/src/mempool/event.rs:313-331 | in every run, those that one event lets go leave in the order they were received |
| `AdmissionArrival.DeployReleasesInOrder` | crates/node/src/mempool/event.rs:316-330 | the Runs a Deploy emits are exactly those parked on its prover, then those on its verifier, each in their order, as far as no other program of theirs is missing |
| `AdmissionArrival.StageEmitsRuns` | crates/node/src/mempool/event.rs:366-375 | the Runs that come out of the parent checks are those that go in and are ready, in the same order |
| `AdmissionArrival.RunWaitsForFirstMissing` | crates/node/src/mempool/event.rs:291-311 | a Run waits, last in line, for the first program of its workflow that is not known |
| `AdmissionArrival.RunPasses` | crates/node/src/mempool/event.rs:291-311 | a Run whose programs are all known passes and changes nothing |
| `AdmissionArrival.ChildWaitsForParent` | crates/node/src/mempool/event.rs:351-354 | a Proof, ProofKey or Verification of an unknown parent waits for it, last in line |
| `AdmissionArrival.OthersPass` | crates/node/src/mempool/event.rs:351-364 | any other transaction but a Run passes the parent check and takes its waiting children with it |
| `AdmissionGuarantees.CacheIsInvisible` | crates/node/src/mempool/event.rs:448-454 | from start-up, with at least two program slots and saves that succeed, outputs, waiting maps and known keys are those of one unbounded set without a cache |
| `AdmissionGuarantees.FaithfulIffTwoSlots` | crates/node/src/mempool/event.rs:321-325 | over all runs whose Runs pass validation, outputs and waiting Runs are those without a cache if and only if the program cache has at least two slots |
| `AdmissionGuarantees.OneSlotLosesWakeUp` | crates/node/src/mempool/event.rs:321-325 | with fewer than two slots there is a run, of transactions that pass validation, in which a Run waits for a program that an emitted Deploy has provided |
| `AdmissionGuarantees.RunsAreWoken` | crates/node/src/mempool/event.rs:291-331 | no lost wake-up for the cached pipeline: a key still waited for was neither stored at the start nor provided by an emitted Deploy |
| `AdmissionGuarantees.ParentsComeFirstIff` | crates/node/src/mempool/event.rs:336-382 | in every run, for every capacity and every pattern of failing saves: each emitted child finds its parent known at the start or strictly earlier if and only if no Run strays |
| `AdmissionGuarantees.NonRunParentsComeFirst` | crates/node/src/mempool/event.rs:336-382 | in every run, for every capacity and every pattern of failing saves, a child whose parent is not a Run finds that parent known at the start or strictly earlier |
| `AdmissionGuarantees.ChildrenLeftWaitingIff` | crates/node/src/mempool/event.rs:357-364 | for the cached pipeline: a key waited for was stored or emitted if and only if it went out as the child of another transaction |
| `AdmissionGuarantees.AGrandchildIsLeftWaiting` | crates/node/src/mempool/event.rs:357-364 | a concrete run (Verification, its Proof, their Run) that leaves the Verification parked on the emitted Proof |
| `AdmissionGuarantees.AChildCanComeFirst` | crates/node/src/mempool/event.rs:357-375 | a concrete run (Run, its Proof, a Deploy of one of two programs) that emits the Proof before its Run |
| `AdmissionNode.TxCache.constructor` | crates/node/src/mempool/event.rs:436-446 | an empty cache with the given sizes |
| `AdmissionRecency.RemembersIff` | crates/node/src/mempool/event.rs:448-454 | the bounded list remembers a key if and only if at most capacity different keys, this one included, were put since some use of it; it never outgrows its capacity |
| `AdmissionNode.TxCache.EvictOldWaitingTx` | crates/node/src/mempool/event.rs:475-492 | keeps exactly the entries whose age at one clock reading is at most the limit, unchanged |
| `AdmissionNode.TxCache.ExpiredKeys` | crates/node/src/mempool/event.rs:476-483 | the collected keys are exactly those whose entry is too old |
| `AdmissionNode.TxCache.RemoveKeys` | crates/node/src/mempool/event.rs:487-490 | removes exactly the given keys |
| `AdmissionNode.TxCache.AddNewWaitingTx` | crates/node/src/mempool/event.rs:456-466 | a map with at least the maximal number of entries first loses those older than the limit; the transaction goes last in its entry, which keeps its time |
| `AdmissionNode.TxCache.RemoveWaitingChildrenTxs` | crates/node/src/mempool/event.rs:468-473 | returns and removes the whole entry, or nothing |
| `AdmissionNode.Node.WaitForProgram` | crates/node/src/mempool/event.rs:247-273 | ready if and only if the program is cached or stored; parked otherwise |
| `AdmissionNode.Node.WaitForParent` | crates/node/src/mempool/event.rs:247-273 | ready if and only if there is no parent or it is cached or stored; parked otherwise |
| `AdmissionNode.Node.ManageProgramDep` | crates/node/src/mempool/event.rs:277-334 | the loops compute the program check on values: new state and returned transactions |
| `AdmissionNode.Node.ReleaseWaiters` | crates/node/src/mempool/event.rs:316-326 | remembers each deployed program and returns its waiters in order |
| `AdmissionNode.Node.RevalidateRuns` | crates/node/src/mempool/event.rs:366-375 | re-checks released Runs one by one and passes the rest through |
| `AdmissionNode.Node.CacheTxs` | crates/node/src/mempool/event.rs:378-380 | remembers every returned transaction, in order |
| `AdmissionNode.Node.ManageParentDep` | crates/node/src/mempool/event.rs:336-382 | computes the parent check on values: new state and returned transactions |
| `AdmissionNode.Node.ManageParentDeps` | crates/node/src/mempool/event.rs:232-239 | the loop folds the parent check over everything the program check freed |
| `AdmissionNode.Node.ValidateDependencies` | crates/node/src/mempool/event.rs:224-245 | program check, then the parent checks |
| `AdmissionNode.Node.SaveAll` | crates/node/src/mempool/txvalidation/mod.rs:108-114 | saves in order and goes on after a failed save |
| `AdmissionNode.Node.Process` | crates/node/src/mempool/txvalidation/mod.rs:99-128 | the event loop computes the run that the theorems speak of |
| `AdmissionNode.Serve` | crates/node/src/mempool/txvalidation/mod.rs:56-57 | from start-up with 50 cached keys, 100 waiting entries and one hour: the output is that of the uncached pipeline, ordered by programs, and no waiting key is a known program |
| `VmProvider.FewTakenHasRoom` | crates/node/src/vmm/qemu.rs:90-106 | fewer than 2^32 - 3 ids taken leaves one at or above 3 free |
| `VmProvider.FirstFreeExists` | crates/node/src/vmm/qemu.rs:90-106 | if an id is free, counting up with wrap-around meets a first one within 2^32 steps |
| `VmProvider.FirstFreeUnique` | crates/node/src/vmm/qemu.rs:90-106 | the first free id in cyclic order is unique |
| `VmProvider.Qemu.AllocateCid` | crates/node/src/vmm/qemu.rs:90-106 | terminates with exactly the first free id of at least 3 in cyclic order, wrap-around included, and marks it taken |
| `VmProvider.Qemu.ReleaseCid` | crates/node/src/vmm/qemu.rs:108-112 | gives back an id with its registration; an id that was not taken changes nothing |
| `VmProvider.PortsDistinct` | crates/node/src/vmm/qemu.rs:178 | the port is in 1024..65535, and two ids share it if and only if they differ by a multiple of 64512 |
| `VmProvider.Qemu.StartVm` | crates/node/src/vmm/qemu.rs:173-192 | registered before boot under its transaction; taken out again exactly when boot failed and the process was killed; registry keys stay equal to the taken ids |
| `VmProvider.Qemu.StopVm` | crates/node/src/vmm/qemu.rs:367-390 | forgets exactly the stopped VM, or nothing when killing fails |
| `VmProvider.Qemu.constructor` | crates/node/src/vmm/qemu.rs:78-88 | nothing registered, counting starts at 4 |
| `SchedulerInvariants.StartKeeps` | crates/node/src/scheduler/program_manager.rs:58-83 | starting a program registers only under its own transaction, disturbs no registration, and takes resources only if it succeeds |
| `SchedulerInvariants.ApplyKeepsHost` | crates/node/src/scheduler/mod.rs:195-330 | every scheduler operation, with any answers of the world, keeps the resource balance and the VM identities |
| `SchedulerInvariants.HostSafe` | crates/node/src/scheduler/mod.rs:189-330 | both hold after every sequence of operations |
| `SchedulerInvariants.ResourcesConserved` | crates/node/src/scheduler/resource_manager.rs:14-98 | for memory, CPUs and GPUs: available plus all live handles equals the total in every reachable state, so nothing underflows |
| `SchedulerInvariants.OneGpuHolder` | crates/node/src/scheduler/resource_manager.rs:100-102 | with the one GPU that can be configured, at most one live handle holds it |
| `SchedulerInvariants.VmsIdentified` | crates/node/src/vmm/qemu.rs:131-143 | in every reachable state registry keys equal taken ids, each live handle is registered under its own transaction, and no two handles share an id |
| `SchedulerTasks.TasksAccounted` | crates/node/src/scheduler/mod.rs:291-330 | in every reachable state each copy of an enqueued task is queued, running, submitted, reaped or dropped, exactly once, and kept under its own transaction |
| `SchedulerTasks.HandingOutIsSafe` | crates/node/src/scheduler/mod.rs:481-530 | handing out never replaces a running task; results and reaped tasks never exceed tasks handed out |
| `SchedulerEffects.ResultsEndTheirVm` | crates/node/src/scheduler/mod.rs:540-661 | in every reachable state: a result that is accepted or whose VM cannot be stopped leaves no task and no VM for its transaction, frees exactly what the VM held, and unregisters it if and only if it was killed; a result that is not delivered or not expected leaves VMs and resources alone |
| `SchedulerEffects.EnqueueDoes` | crates/node/src/scheduler/mod.rs:291-330 | the task stands last in its queue, or the whole queue is dropped, which happens if and only if the program does not exist; the program is pending if and only if its transaction got no new VM |
| `SchedulerEffects.StartsIff` | crates/node/src/scheduler/program_manager.rs:64-77 | a program starts if and only if it exists, what it asks for is free, an id is left and the VM boots; it holds its own limits, or 2048 of memory and two CPUs |
| `SchedulerEffects.RequestDoes` | crates/node/src/scheduler/mod.rs:480-529 | a transaction whose task is running loses its VM and gets no task; otherwise the front of its queue is handed out and VMs stay |
| `SchedulerEffects.NothingDropped` | crates/node/src/scheduler/mod.rs:317-321 | in every run without a lookup of a program that does not exist, no task is dropped |
| `SchedulerEffects.HandedOutInOrder` | crates/node/src/scheduler/mod.rs:507-526 | in every run the tasks handed out for a transaction, followed by those still queued, are a subsequence of those enqueued for it |
| `NodeTasks.ProgramStays` | crates/node/src/workflow/mod.rs:252-302 | while the store grows, the program that tasks for a transaction run does not change |
| `NodeTasks.NoResultAborts` | crates/node/src/scheduler/mod.rs:588-616 | in every run whose tasks come from the workflow engine over a growing store, every result makes a transaction and no reply is a panic |
| `NodeTasks.ReportingVmRanItsTask` | crates/node/src/scheduler/mod.rs:301-308 | in every such run, a VM that reports for a running task ran the program that task asked for |
| `SchedulerTasks.ReapIsExact` | crates/node/src/scheduler/mod.rs:372-467 | surviving tasks are exactly those with a live VM within 1800 s; surviving VMs are exactly theirs plus those without a running task within 60 s; survivors keep their task and handle, and a VM that goes stays registered if and only if it was not killed |
| `SchedulerTasks.ReapIsStable` | crates/node/src/scheduler/mod.rs:435-466 | a second round with the same observations changes nothing |
| `SchedulerPending.TurnRotates` | crates/node/src/scheduler/mod.rs:198-236 | copy and queue pop in lockstep: a turn starts a prefix, moves the first failure to the back, and loses nothing |
| `SchedulerPending.StartedHaveVms` | crates/node/src/scheduler/mod.rs:211-213 | every program started in a turn has its VM at the end of it |
| `SchedulerPending.FollowsTheItem` | crates/node/src/scheduler/mod.rs:202-234 | an item no operation tried moves forward by exactly what went from before it |
| `SchedulerPending.TriedInTime` | crates/node/src/scheduler/mod.rs:195-237 | whatever is interleaved, the item at position p is tried within p + 1 turns |
| `SchedulerPending.FailuresRotate` | crates/node/src/scheduler/mod.rs:219-233 | n failing turns rotate the queue by n |
| `SchedulerPending.FullRotationRestores` | crates/node/src/scheduler/mod.rs:219-233 | as many failing turns as there are items restore the order |
| `SchedulerObjects.ResourceManager.TryAllocate` | crates/node/src/scheduler/resource_manager.rs:52-86 | succeeds if and only if all three amounts fit, and then subtracts all three |
| `SchedulerObjects.ResourceManager.Free` | crates/node/src/scheduler/resource_manager.rs:88-97 | adds all three amounts back |
| `SchedulerObjects.ProgramManager.StartProgram` | crates/node/src/scheduler/program_manager.rs:58-83 | lookup, reservation, boot: new host state and outcome on every exit path, a reservation dying with a failed boot |
| `SchedulerObjects.ProgramManager.StopProgram` | crates/node/src/scheduler/program_manager.rs:85-87 | the reservation returns whether or not the VM could be killed |
| `SchedulerObjects.Scheduler.constructor` | crates/node/src/scheduler/mod.rs:76-85 | the initial state of the theorems |
| `SchedulerObjects.Scheduler.Install` | crates/node/src/scheduler/mod.rs:212 | inserting over an old handle returns its resources |
| `SchedulerObjects.Scheduler.StopVmOf` | crates/node/src/scheduler/mod.rs:498-502 | removes the handle and stops its VM, which is always registered |
| `SchedulerObjects.Scheduler.Push` | crates/node/src/scheduler/mod.rs:291-299 | appends to the queue of the transaction |
| `SchedulerObjects.Scheduler.Enqueue` | crates/node/src/scheduler/mod.rs:291-330 | queue and start, with the effect that `EnqueueDoes` states |
| `SchedulerObjects.Scheduler.StartPending` | crates/node/src/scheduler/mod.rs:195-237 | the loop over the copied queue computes one turn |
| `SchedulerObjects.Scheduler.GetPendingTask` | crates/node/src/scheduler/mod.rs:477-530 | hands out the front task, or stops the VM of a task already running, with the effect that `RequestDoes` states |
| `SchedulerObjects.Scheduler.SubmitResult` | crates/node/src/scheduler/mod.rs:532-662 | reply and effect for a result, a reported error, a failed delivery, a failed stop and an unknown task; the transaction made names the task, the program and the files |
| `SchedulerObjects.Scheduler.FindZombies` | crates/node/src/scheduler/mod.rs:375-415 | collects exactly the running tasks without a live VM in time |
| `SchedulerObjects.Scheduler.ReapTasks` | crates/node/src/scheduler/mod.rs:417-433 | stops the VMs of exactly the zombies and writes their tasks off |
| `SchedulerObjects.Scheduler.FindIdle` | crates/node/src/scheduler/mod.rs:436-454 | collects exactly the taskless VMs past the idle limit |
| `SchedulerObjects.Scheduler.ReapVms` | crates/node/src/scheduler/mod.rs:456-466 | stops exactly those, leaving the first pass as it was |
| `SchedulerObjects.Scheduler.ReapZombies` | crates/node/src/scheduler/mod.rs:372-467 | both passes together compute one round of reaping, and leave exactly the tasks and VMs that should survive |
| `Ancestry.AcyclicIffGrounded` | crates/node/src/workflow/mod.rs:259-300 | parent links have no cycle if and only if every climb ends |
| `Ancestry.UngroundedIff` | crates/node/src/workflow/mod.rs:259-300 | a climb never ends if and only if every ancestor has a parent link |
| `Ancestry.HeightBound` | crates/node/src/workflow/mod.rs:259-300 | a climb that ends takes at most as many steps as there are links |
| `Workflow.Position` | crates/node/src/workflow/mod.rs:83 | the first step with the given program, or none if there is none |
| `Workflow.FilesFollowInputs` | crates/node/src/workflow/mod.rs:311-320 | a task gets one file per input, in order; otherwise the first unavailable output is reported |
| `Workflow.Engine.WorkflowForTransaction` | crates/node/src/workflow/mod.rs:252-302 | the loop terminates and returns what is found at the top of the climb |
| `Workflow.Engine.ComputeNextTask` | crates/node/src/workflow/mod.rs:47-192 | the decision for every payload and error, a failing mark included, and exactly which transactions are marked executed |
| `Workflow.DescendantsShareTheWorkflow` | crates/node/src/workflow/mod.rs:259-288 | every Proof and ProofKey at any depth below a Run gets that Run's workflow |
| `Workflow.WorkflowFoundIff` | crates/node/src/workflow/mod.rs:252-302 | a workflow is found if and only if the hash descends from a Run with it |
| `Workflow.ProofLeadsToNextStep` | crates/node/src/workflow/mod.rs:83-109 | with distinct programs a Proof by step i leads to step i + 1, or to the missing-step error for the last |
| `Workflow.RunAnswered` | crates/node/src/workflow/mod.rs:51-67 | a Run is answered with a proving task for its first step, field by field, if and only if it has one and reads no output; otherwise with nothing or the first missing output |
| `Workflow.ProofAnswered` | crates/node/src/workflow/mod.rs:68-116 | a Proof below a Run is answered with a verifying task for the step after its own, field by field, if and only if there is one and all outputs it reads are among the files of the Proof; otherwise with the exact error |
| `Workflow.ProofKeyAnswered` | crates/node/src/workflow/mod.rs:117-170 | a ProofKey is answered with the task of its Proof, for the Proof, except that it panics where the Proof made by the last step gets an error |
| `Workflow.ProofWithoutRun` | crates/node/src/workflow/mod.rs:252-302 | the error a Proof gets when its climb ends at something that is not stored, at a Deploy or Verification, or at anything else |
| `Workflow.OthersGetNoTask` | crates/node/src/workflow/mod.rs:171-191 | Deploys and Verifications need no task, other payloads are refused |
| `Workflow.ProofKeyPanicsIff` | crates/node/src/workflow/mod.rs:143-162 | a ProofKey runs past the workflow if and only if its Proof was made by the last step; otherwise it agrees with the Proof |
| `Workflow.AProofKeyCanPanic` | crates/node/src/workflow/mod.rs:143-153 | a concrete store (a one-step Run, its Proof, a ProofKey) on which it does |
| `Workflow.OnlyProofKeysPanic` | crates/node/src/workflow/mod.rs:47-192 | no other payload can run past the workflow |
| `Workflow.TasksAreDetermined` | crates/node/src/workflow/mod.rs:304-332 | every task is a proving or verifying one, and its program is determined by the transaction it is for |
| `Workflow.ChainFromProof` | crates/node/src/workflow/mod.rs:171-178 | after a Proof at most its verification runs, then the chain ends |
| `Workflow.ChainRunsTwoSteps` | crates/node/src/scheduler/mod.rs:588-606 | a chain the node itself produces runs step 0 as a proof, step 1 as its verification, and stops |
| `TxTree.BuildRows` | crates/node/src/rpc_server/mod.rs:217-246 | the tree under a hash holds each row below that hash once and no other |
| `TxTree.ServedRows` | crates/node/src/rpc_server/mod.rs:196-212 | for a list with one root, the served tree holds exactly the rows that lead up to it, each once |
| `TxTree.TreeIsFaithfulIff` | crates/node/src/rpc_server/mod.rs:217-246 | the tree reads back to the input list, as a multiset, if and only if the list has no cycle |
| `TxTree.TagsMatchPositions` | crates/node/src/rpc_server/mod.rs:230-243 | the top and only the top is a Root; a Node has children, a Leaf has none |
| `TxTree.ServedIff` | crates/node/src/rpc_server/mod.rs:196-211 | the request fails as not found if and only if every row has a parent, as invalid if and only if two rows have none, and otherwise serves a tree from the one that has none |
| `TxTree.ChildrenInListOrder` | crates/node/src/rpc_server/mod.rs:218-228 | the children of a node stand in the order of the list |
| `TxTree.RowOf` | crates/node/src/rpc_server/mod.rs:230 | the search finds a row of the hash |
| `Watchdog.Monitor.Handle` | crates/node/src/watchdog/mod.rs:95-158 | one round of the loop, status written only on change |
| `Watchdog.Monitor.Run` | crates/node/src/watchdog/mod.rs:80-159 | after any events the status is the verdict on the whole history |
| `Watchdog.AgreesWithHistory` | crates/node/src/watchdog/mod.rs:80-159 | for every history and limit each flag, counter and the status agree with the history; Critical outranks Graceful |
| `Watchdog.SignalLostIs` | crates/node/src/watchdog/mod.rs:105-135 | signal loss is: the last receive was a close, or at least limit (and one) timeouts since it |
| `NoiseCodec.ChunksOfFlatten` | crates/node/src/networking/p2p/noise.rs:147 | cutting joined packed pieces gives the pieces back |
| `NoiseCodec.DecryptUndoesEncrypt` | crates/node/src/networking/p2p/noise.rs:144-165 | cuts at 65535 realign with sealed chunks of 65519 + 16; the receiver ends at the sender's nonce |
| `NoiseCodec.NodeFits` | crates/node/src/networking/p2p/noise.rs:13-14 | with a two-byte prefix and limit 65535 a message fits if and only if it has at most 65519 bytes |
| `NoiseCodec.BytesAre` | crates/node/src/networking/p2p/noise.rs:98-101 | a length prefix is big-endian, byte by byte |
| `NoiseCodec.NodePrefix` | crates/node/src/networking/p2p/noise.rs:197 | a frame of the node begins with the high and the low byte of the length of its body |
| `NoiseCodec.TooLongIsRefused` | crates/node/src/networking/p2p/noise.rs:125-129 | a frame that announces more than the limit is an error, and nothing is decoded after it |
| `NoiseCodec.DrainMore` | crates/node/src/networking/p2p/noise.rs:113-129 | decoding early and decoding late give the same messages |
| `NoiseCodec.PiecesDoNotMatter` | crates/node/src/networking/p2p/noise.rs:113-129 | however the stream is cut up, the result is that of receiving it whole |
| `NoiseCodec.WholeStream` | crates/node/src/networking/p2p/noise.rs:113-199 | decoding the encodings of fitting messages returns them and leaves equal nonces |
| `NoiseCodec.CodecRoundTrip` | crates/node/src/networking/p2p/noise.rs:113-199 | the same for any way the bytes are cut up on arrival: same messages, in order, nothing left over, equal nonces |
| `NoiseCodec.ReceiverBound` | crates/node/src/networking/p2p/noise.rs:144-165 | a receiver at any nonce advances by at most the chunks written, whether or not they open |
| `NoiseCodec.InStepIffAllFit` | crates/node/src/networking/p2p/noise.rs:187-197 | however the stream is cut up, sender and receiver end at the same nonce if and only if every message fits |
| `NoiseCodec.Codec.constructor` | crates/node/src/networking/p2p/noise.rs:96-106 | nonces start at zero; bytes carried over from the handshake are kept |
| `NoiseCodec.Codec.SealChunks` | crates/node/src/networking/p2p/noise.rs:185-195 | the loop encrypts the message; the i-th seal ever made uses nonce i |
| `NoiseCodec.Codec.Encode` | crates/node/src/networking/p2p/noise.rs:184-198 | appends one frame or, for a message too long, nothing; nonces advance either way |
| `NoiseCodec.Codec.DecodeNext` | crates/node/src/networking/p2p/noise.rs:113-167 | one decoding step on the carried-over and new bytes: message, nothing yet, or error |
| `NoiseCodec.Codec.OpenChunks` | crates/node/src/networking/p2p/noise.rs:147-162 | opens chunk by chunk and stops at the first failure |
| `PeerJoin.MessageOf` | crates/node/src/networking/p2p/pea2pea.rs:153-176 | the corrected handshake of a member lists what it knows and itself, under real addresses |
| `PeerJoin.NewsFrom` | crates/node/src/networking/p2p/pea2pea.rs:409-431 | a joining node learns exactly the members it does not list yet, except the sender and its own local address |
| `PeerJoin.ShakeAdds` | crates/node/src/networking/p2p/pea2pea.rs:359-439 | a handshake adds exactly the other side to each list, with its download port |
| `PeerJoin.ShakeJoins` | crates/node/src/networking/p2p/pea2pea.rs:359-439 | a handshake with a new member advances the join by that member and leaves third parties alone |
| `PeerJoin.Network.DialNext` | crates/node/src/networking/p2p/pea2pea.rs:241-254 | one dial: what is found is exactly what is still to come |
| `PeerJoin.Network.WorkOne` | crates/node/src/networking/p2p/pea2pea.rs:240-261 | one round: whoever is in reach and has not failed yet is listed, from the second connection on twice as long as it is not connected |
| `PeerJoin.StageMoves` | crates/node/src/networking/p2p/pea2pea.rs:243-250 | a new connection takes one copy off the list and adds everyone still to come |
| `PeerJoin.Network.DoConnect` | crates/node/src/networking/p2p/pea2pea.rs:232-264 | terminates; connects to exactly the members in reach; reports as failed exactly those except the one joined through and the greatest of the others; the mesh is full again if and only if no other member has the newcomer's local address |
| `PeerJoin.MeshIff` | crates/node/src/networking/p2p/pea2pea.rs:430-431 | leaving a member out is exactly what keeps the mesh from being full |
| `PeerJoin.JoinOne` | crates/node/src/networking/p2p/pea2pea.rs:232-264 | one join of any newcomer to a full mesh of any size: full again if and only if no member but the one joined through has the local address of the newcomer |
| `PeerJoin.AMemberCanBeMissed` | crates/node/src/networking/p2p/pea2pea.rs:411-431 | a concrete mesh of two and a newcomer, bound to the address of the second, after whose join the mesh is not full |
| `PeerJoin.JoinInTurn` | crates/node/src/networking/p2p/pea2pea.rs:673-749 | any number of nodes joining one after another, each through any member, keep a full mesh |

## Left out

- Postgres and its queries: storage is a set of stored transactions and programs.
- Storage query errors, in the admission pipeline and in the workflow walk: an error ends the call in the middle; runs are taken to be free of them.
- Signature checks, access lists, asset download and propagation before a transaction reaches the dependency check.
- Hash computation and payload serialisation: hashes are opaque identifiers, chosen fresh where the node would draw a nonce.
- The Noise XX handshake, the cipher and the handshake state of the codec: library cryptography.
- The wire formats of messages other than the frame and its length prefix.
- The order in which hash maps are iterated: loops over them take any order.
- 64-bit overflow of nonces, resource counters and retry counters: they are unbounded numbers; resources never exceed the configured total.
- VmProvider.Qemu.StartVm: does not model the panic when the QEMU process cannot be spawned at all, which ends the scheduler loop.
- QEMU command lines, QMP, vsock, gRPC and the VM side of a task.
- Marking a transaction executed when its result arrives: the scheduler only logs whether storage accepts it.
- Copying task files into a VM workspace before a task is enqueued, and picking the next transaction from the mempool: enqueued tasks are inputs.
- Time as such: run times and liveness are observed afresh in each round of reaping.
- `find_parent_tx_for_program` of the workflow engine, which nothing calls.
- Cyclic parent links in the workflow walk: it would not end; `WorkflowForTransaction` takes exactly the hashes whose climb ends.
- Lists in which a hash occurs twice, in the transaction tree.
- Connections opened to the joining node while it joins, disconnects and reconnection: joins happen one after the other.
- RPC transport, command line, metrics, logging and the HTTP servers.
