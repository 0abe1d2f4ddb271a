# Zypak: verified models of its protocols

Zypak lets Chromium's zygote sandbox run inside Flatpak by asking the Flatpak portal to spawn each
sandboxed process. Its hard part is not computation but coordination: three process ids per child, bus
events racing with threads blocked in `waitpid`, an event loop that is stopped and restarted around
`fork`, and descriptors that travel through two sockets and a command line before they are put in place.
This project models those protocols in Dafny and proves what they keep over every run and every
interleaving.

| file | what it models |
|---|---|
| `SupervisorState.dfy` | the supervisor's two maps and its bus handlers, as functions and as the class that updates the maps in place |
| `SupervisorReuse.dfy` | the same handlers where pids are reused |
| `SupervisorProtocol.dfy`, `SupervisorRuns.dfy` | the supervisor under any interleaving of bus events and calling threads; the relation to a register keyed by spawn; correlation and at-most-once delivery |
| `SupervisorRegister.dfy` | that register as a specification with its own steps and answers; simulation and linearizability of every call |
| `SupervisorWakeup.dfy`, `ProcessOverride.dfy` | the condition variable's wakeups; the `waitpid` override on top |
| `EvLoop.dfy`, `BusThread.dfy`, `BusShutdown.dfy` | the event loop, the bus thread, its clients and the `fork` override; wakeups, exactly-once tasks, shutdown by a ranking measure |
| `BusChild.dfy` | the child's side of a fork, whose event loop refuses every call |
| `EventSource.dfy`, `EventSourceLife.dfy` | reference counts of floating event sources, and what whole lives of a source guarantee |
| `FdAssignments.dfy`, `HelperArgs.dfy`, `MimicFork.dfy` | descriptor maps: printed by the launcher, parsed and applied one by one by the helper, built by the mimic zygote |
| `Pickle.dfy`, `SpawnRequest.dfy`, `StrUtil.dfy` | messages as item sequences, the stub's spawn request and its control buffer, `SplitInto` and `Join` |
| `Zygote.dfy` | the mimic zygote's child set against the process table, and its reap timers |
| `DBusGrammar.dfy`, `Utf8Text.dfy` | the D-Bus type system as a grammar of values, and UTF-8 as an encoding; the checks used elsewhere accept exactly these |
| `PortalMessage.dfy`, `PortalReading.dfy` | the Spawn call as a D-Bus message, checked against the "Type System" chapter of the D-Bus Specification, and read back by the portal |
| `MessageReading.dfy` | the repository's own message reader, and how far it gets |
| `Basics.dfy` | machine integers and sequence facts |

State that the program updates in place is a class whose methods are proved to compute a function of the
old state (`OnReply`, `Enqueue`, `Run`, `AfterStatus`, ...); the step relations and the run theorems are
stated over those same functions. A run is a sequence of worlds linked by events, from the initial world,
with no bound on its length or on the number of threads.

## Assumptions about the environment

- Portal (`SupervisorProtocol.PortalAllows`): a Spawn call is answered once; external pids are fresh over
  the run; then SpawnStarted, then SpawnExited, each at most once; a stub pid is not reused while it has a
  record. Signals for pids that were never handed out are allowed. `SupervisorRuns.LateSignalAborts` shows
  why the order is needed.
- Whether a write to a stub's socket succeeds is an input. The safety theorems hold either way.
- Each critical section under a mutex is one step; unlocking and notifying are two. Sleeping threads may
  also wake for no reason.
- Each sd-event call is one step with its documented meaning: one source per dispatch, oldest first, no
  free while dispatching, and -ECHILD for every call in a process other than the one that created the loop.
- libdbus refuses a string that is not valid UTF-8 and a descriptor that is not open; strings are strings
  of bytes.
- The child that the portal starts has every forwarded descriptor under the number the caller named.
- Reading a pickle returns the items that were written, in order.

## Where the code does not do what it promises

For each there is a run, or all the inputs, that show it, and the exact condition under which the
promise holds.

- `HandleSpawnRequest` moves the descriptor into `FulfillSpawnRequest` and then stores the moved-from
  value, so every later write fails, no exit is ever recorded and no thread ever gets an exit status
  (`MovedFromDescriptorLosesExits`; `ExitIsLost` is a run with an exit). Once the portal has accepted a
  spawn, no `WaitForExitStatus` for it ever returns (`WaitNeverReturns`). An exit becomes visible exactly
  when the write succeeds (`ExitRecordedIffWritten`).
- A failed Spawn erases the record without notifying and can leave a thread asleep for good
  (`FailedSpawnStrandsWaiter`). A run loses a wakeup if and only if one of its steps is that erase, or
  `WaitForExitStatus` taking a record without internal pid, under a sleeper (`WakeupKeptIff`,
  `NoWakeupLostIff`). The second needs a portal that names internal pid 0xFFFFFFFF
  (`NamelessChildStrandsWaiter`); with any other portal it cannot happen (`DeadChildHasInternal`).
- `external_to_stub_pids_` is never pruned. A late signal trips the assertion in `FindStubPidData`
  (`LateSignalAborts`) if and only if its spawn has ended and the stub pid has a record again
  (`LookupAbortsIff`). A spawn with a pid ends only by being collected, so this takes writes that succeed.
- `children_` is not the set of children still to be waited for: a reap timer collects its child without
  erasing it (`ReapedChildStays`), and a child that the host never confirms is killed, waited for and then
  entered (`UnconfirmedChildStays`). These two are the only causes: step by step (`AgreementKeptIff`), over
  a whole run (`AgreementAlwaysIff`), and for each pid, until a fork or a status request (`StaleIff`).
- A reap timer whose child someone else waits for re-arms itself forever (`StatusRequestOrphansChain`,
  `OrphanedChainNeverStops`); after two firings a chain has ended if and only if nobody else waited for the
  child (`ChainEndsIff`).
- The SIGKILL of such a chain can strike a later child with the same pid (`ChainKillsSuccessor`), if and only
  if the named one was collected before the firing (`KillsOtherChildIff`).
- A forked child never submits anything (`ChildNeverSubmits`). Its `SendCall` never returns: it blocks
  forever if and only if another thread held the loop's lock at the fork, and otherwise its assertion aborts
  the child (`SendCallInChild`; `SendCallBlocksOrAborts` is a run of each kind). Its `AddMatch` drops the
  task without a word (`AddMatchLosesTask`).
- A spawn request with more than sixteen descriptors is cut to sixteen, and a truncated read is only
  logged: the child is spawned with the first sixteen (`FulfillAfterSend`). A request arrives unchanged if
  and only if it has at most sixteen descriptors and fits into the buffer (`RequestArrivesIff`).
- `Split` undoes `Join` only for items that contain no delimiter and a last item that is not empty
  (`SplitOfJoinIff`).
- A directory or argument with a null character inside reaches the portal as no C string at all
  (`DecodeEncoded`). Environment strings reach the portal only up to their first null character (`EnvPairsIff`), and abort the
  program if that part is not valid UTF-8 (`ForeignByteRefused`, `EncodeAcceptedIff`).
- `MessageReader` does not step past a container, so it reaches a value if and only if no container stands
  before it (`ReachesIff`), and could read nothing of a Spawn message (`SpawnCallNotRead`).

## Model

| member | source | states |
|---|---|---|
| SupervisorObject.UniqueFd.constructor | src/base/unique_fd.h:21-22 | A descriptor object owns the number it is given. |
| SupervisorObject.UniqueFd.Release | src/base/unique_fd.h:29-41 | Moving out hands over the old number and leaves the invalid one. |
| SupervisorObject.Supervisor.constructor | src/preload/host/spawn_strategy/supervisor.h:35-80 | A new supervisor knows no stub and no external pid. |
| SupervisorObject.Supervisor.FindStubPidData | src/preload/host/spawn_strategy/supervisor.cc:142-154 | A found record really carries the pid that was looked up; an index entry whose record has another pid is the failing assertion, not a miss. |
| SupervisorObject.Supervisor.HandleSpawnRequest | src/preload/host/spawn_strategy/supervisor.cc:243-252 | A fulfilled request makes a record, or keeps an existing one, whose notify descriptor is the invalid moved-from one; an unfulfilled one changes neither map, yet the caller's descriptor is gone. |
| SupervisorObject.Supervisor.HandleSpawnReply | src/preload/host/spawn_strategy/supervisor.cc:307-330 | The whole new state for each reply: missing record, error (record erased), or pid (stored, and indexed unless the pid is indexed already). |
| SupervisorObject.Supervisor.HandleSpawnStarted | src/preload/host/spawn_strategy/supervisor.cc:186-196 | Only the found record's internal pid changes; aborts exactly when the lookup's assertion fails. |
| SupervisorObject.Supervisor.HandleSpawnExited | src/preload/host/spawn_strategy/supervisor.cc:198-213 | The found record gets the status only when the stub could be told; aborts exactly when the lookup's assertion fails. |
| SupervisorObject.Supervisor.TakeIfDead | src/preload/host/spawn_strategy/supervisor.cc:66-105 | Exactly a dead child's record leaves the map and goes to this caller; otherwise nothing changes. |
| SupervisorReuse.ReusedStubInherits | src/preload/host/spawn_strategy/supervisor.cc:249-252 | A request for a stub pid that has a record keeps the record: the new stub takes over pids and exit status, and is dead if its predecessor was; other records stay as they are. |
| SupervisorReuse.LateReplyIgnored | src/preload/host/spawn_strategy/supervisor.cc:313-316 | A reply for a stub without a record changes nothing, whatever it says. |
| SupervisorReuse.IndexOnlyGrows | src/preload/host/spawn_strategy/supervisor.cc:328-329 | No reply removes or changes an entry of the index. |
| SupervisorReuse.ReusedPidFinds | src/preload/host/spawn_strategy/supervisor.cc:142-154 | What a signal finds when the portal gives an external pid out again: the new child exactly if it has the old one's stub pid, else nothing, the old record, or the failing assertion. |
| SupervisorProtocol.LookupFindsOwner | src/preload/host/spawn_strategy/supervisor.cc:142-154 | For every pid the portal may still signal, the unpruned index finds exactly the record of the spawn that the signal is about, and finds nothing for a foreign pid. |
| SupervisorProtocol.UpdateRefines | src/preload/host/spawn_strategy/supervisor.cc:186-213 | Changing a record in place is the same change of one live spawn in the table keyed by spawn. |
| SupervisorProtocol.EraseRefines | src/preload/host/spawn_strategy/supervisor.cc:318-322 | Erasing a record ends exactly one spawn and no other. |
| SupervisorProtocol.RequestRefines | src/preload/host/spawn_strategy/supervisor.cc:249-252 | A new record is a new spawn, whose stub no other live spawn has. |
| SupervisorProtocol.SpawnedRefines | src/preload/host/spawn_strategy/supervisor.cc:324-329 | Storing a fresh external pid keeps index and records in agreement although emplace never overwrites. |
| SupervisorProtocol.SignalRefines | src/preload/host/spawn_strategy/supervisor.cc:186-213 | A signal's lookup ends at its own spawn's record, and updating it keeps the refinement. |
| SupervisorProtocol.StepRefines | src/preload/host/spawn_strategy/supervisor.cc:66-330 | Every step of every bus handler and calling thread keeps the maps equal to the live part of the register keyed by spawn. |
| SupervisorProtocol.StepGrowsHistory | src/preload/host/spawn_strategy/supervisor.cc:186-330 | No step changes a spawn's stub, an external pid once given, a status once carried, or how a spawn ended. |
| SupervisorProtocol.FrameKeepsHands | src/preload/host/spawn_strategy/supervisor.cc:66-109 | Steps that neither take nor hand out a record keep every held record and every delivery sound. |
| SupervisorProtocol.TakeKeepsHands | src/preload/host/spawn_strategy/supervisor.cc:66-105 | A taken record is held by one thread only and was not delivered before. |
| SupervisorProtocol.ReapKeepsHands | src/preload/host/spawn_strategy/supervisor.cc:168-184 | Handing out a held status keeps deliveries pairwise different. |
| SupervisorProtocol.InvStep | src/preload/host/spawn_strategy/supervisor.cc:66-330 | Refinement, index agreement, held records and single delivery are inductive. |
| SupervisorProtocol.InvAlways | src/preload/host/spawn_strategy/supervisor.cc:66-330 | In every reachable state the maps are exactly the live part of the table keyed by spawn, and every record held or status handed out is its own spawn's. |
| SupervisorRegister.AnswerExists | src/preload/host/spawn_strategy/supervisor.cc:66-140 | For every call the spawns alone determine an answer. |
| SupervisorRegister.AnswerIsUnique | src/preload/host/spawn_strategy/supervisor.cc:66-140 | They determine only one. |
| SupervisorRegister.MapsAnswerAlike | src/preload/host/spawn_strategy/supervisor.cc:66-140 | What the maps make a caller do (not found, try later, sleep, collect, internal pid) is that answer, in every case; a record is taken exactly when the answer is to collect. |
| SupervisorRegister.EnterSimulated | src/preload/host/spawn_strategy/supervisor.cc:66-140 | A look at the maps under the mutex is one step of the register: same answer, same spawn collected. |
| SupervisorRegister.StepSimulated | src/preload/host/spawn_strategy/supervisor.cc:66-330 | Every step of the supervisor is a step of the register's own transition relation, which knows no map, index or record. |
| SupervisorRegister.RunSimulated | src/preload/host/spawn_strategy/supervisor.cc:66-330 | Every run of the supervisor is a run of the register from no spawns at all. |
| SupervisorRegister.OutcomeOnEntry | src/preload/host/spawn_strategy/supervisor.cc:66-140 | An outcome settled under the mutex is the register's answer at that moment. |
| SupervisorRegister.OutcomeWasTrue | src/preload/host/spawn_strategy/supervisor.cc:66-140 | Every settled outcome was true when its thread last looked, in its present call. |
| SupervisorRegister.CallsAreLinearizable | src/preload/host/spawn_strategy/supervisor.cc:66-140 | Whatever GetExitStatus, WaitForExitStatus or FindInternalPidBlocking returns, kNotFound and kTryLater included, was the register's answer at one moment between call and return, under any interleaving. |
| SupervisorRegister.WakesWhenAnswered | src/preload/host/spawn_strategy/supervisor.cc:89-131 | The predicate a sleeper waits for is true exactly when its call would not sleep again. |
| SupervisorRegister.NotifiedLooksAgain | src/base/guarded_value.h:107-125 | After a notify-all exactly the sleepers look again, each in the call it was in. |
| SupervisorRegister.StatusIsDelivered | src/preload/host/spawn_strategy/supervisor.cc:66-109 | A run each for GetExitStatus and WaitForExitStatus that ends with the status, as a signed int, in the caller's hands. |
| SupervisorRuns.ExternalWasReplied | src/preload/host/spawn_strategy/supervisor.cc:324-329 | A spawn's external pid is the one in an earlier reply to that very spawn. |
| SupervisorRuns.StatusWasSignalled | src/preload/host/spawn_strategy/supervisor.cc:198-213 | A recorded status was carried by an earlier SpawnExited for that spawn's pid, which was known by then. |
| SupervisorRuns.DeliveredStatusIsOwn | src/preload/host/spawn_strategy/supervisor.cc:66-109 | Every status handed out for stub S is the one SpawnExited carried for the external pid in S's own Spawn reply, and the reply came first. |
| SupervisorRuns.DeliveredAtMostOnce | src/preload/host/spawn_strategy/supervisor.cc:66-109 | An accepted spawn yields a status to at most one call of all threads. |
| SupervisorRuns.IndexAgrees | src/preload/host/spawn_strategy/supervisor.cc:318-329 | In every reachable state the index leads from each live record's external pid to that record, so it is injective on live records, although it is never pruned and never overwritten. |
| SupervisorRuns.LookupNeverAborts | src/preload/host/spawn_strategy/supervisor.cc:152 | The assertion fires on no signal of an orderly portal. |
| SupervisorRuns.LookupAbortsIff | src/preload/host/spawn_strategy/supervisor.cc:142-154 | In every reachable state the assertion would fire for a spawn's pid if and only if that spawn has ended and its stub pid has a record again. |
| SupervisorRuns.ReuseStub | src/preload/host/spawn_strategy/supervisor.cc:249-252 | Such a state is reachable: spawn, exit, collect, request with the same stub pid. |
| SupervisorRuns.LateSignalAborts | src/preload/host/spawn_strategy/supervisor.cc:142-154 | A run leads to a world in which a late signal trips the assertion. |
| SupervisorRuns.ExitRecordedIffWritten | src/preload/host/spawn_strategy/supervisor.cc:206-212 | In every run an exit signal makes the child's status available if and only if the write to the stub succeeds. |
| SupervisorRuns.NoneReportedStep | src/preload/host/spawn_strategy/supervisor.cc:206-212 | While writes to an invalid descriptor fail, no step records an exit. |
| SupervisorRuns.NoneReportedNoneDelivered | src/preload/host/spawn_strategy/supervisor.cc:77-86 | Without a recorded exit nobody was handed a status. |
| SupervisorRuns.MovedFromDescriptorLosesExits | src/preload/host/spawn_strategy/supervisor.cc:243-252 | Because the stored descriptor is moved-from, in every run no exit is ever recorded and no status ever handed out. |
| SupervisorRuns.ExitIsLost | src/preload/host/spawn_strategy/supervisor.cc:198-213 | A run in which a child exits, the write fails as it must, and the thread that waits for the child sleeps on. |
| SupervisorRuns.AcceptedStaysLive | src/preload/host/spawn_strategy/supervisor.cc:198-213 | A child that the portal has accepted never leaves the register. |
| SupervisorRuns.WaitFindsNobody | src/preload/host/spawn_strategy/supervisor.cc:89-109 | A WaitForExitStatus that returns at all returns kNotFound, and at one moment of the call there was no live child of that stub. |
| SupervisorRuns.WaitNeverReturns | src/preload/host/spawn_strategy/supervisor.cc:89-109 | A WaitForExitStatus for a child that the portal has accepted never returns. |
| SupervisorWakeup.SleeperExplained | src/base/guarded_value.h:92-127 | After any step that is no hazard, a sleeper whose predicate holds has a notify-all coming. |
| SupervisorWakeup.HazardLosesWakeup | src/preload/host/spawn_strategy/supervisor.cc:318-322 | Each hazard leaves a sleeper whose predicate holds and nobody to wake it. |
| SupervisorWakeup.WakeupKeptIff | src/base/guarded_value.h:92-127 | One step keeps "nobody sleeps with a true predicate unless a notify is pending" if and only if it is neither the silent erase of a failed Spawn nor the silent erase of a child without internal pid, under a sleeper. |
| SupervisorWakeup.DeadChildHasInternal | src/preload/host/spawn_strategy/supervisor.cc:186-213 | When started precedes exited, a dead child's internal pid is known, which rules the second hazard out. |
| SupervisorWakeup.NoWakeupEverLost | src/preload/host/spawn_strategy/supervisor.cc:89-140 | In every run whose Spawn calls succeed no wakeup is lost, for exit waiters and internal-pid waiters alike. |
| SupervisorWakeup.NoWakeupLostIff | src/preload/host/spawn_strategy/supervisor.cc:89-140 | In any run, failed Spawn calls included, no wakeup is ever lost if and only if no step is a hazard. |
| SupervisorWakeup.FailedSpawnStrandsWaiter | src/preload/host/spawn_strategy/supervisor.cc:310-322 | A run of four events in which a failed Spawn strands a waiter. |
| SupervisorWakeup.NamelessChildStrandsWaiter | src/preload/host/spawn_strategy/supervisor.cc:89-140 | A run with only successful Spawn calls, and internal pid 0xFFFFFFFF, in which WaitForExitStatus strands a thread that waits for the internal pid. |
| ProcessOverride.AnswersAlwaysSound | src/preload/host/spawn_strategy/supervisor.cc:66-140 | In every run each answer given, or about to be given, is backed by history and was the register's answer when the thread looked. |
| ProcessOverride.WaitpidAnswers | src/preload/host/spawn_strategy/process_override.cc:37-65 | The assertion never fires; at some moment of the call the override's answer was the one true one: passed on to libc exactly if no live child had that stub pid, zero exactly if one was not reported dead, the pid exactly if one was, with its status handed to this thread. Without WNOHANG it is never zero. |
| ProcessOverride.PollNeverSleeps | src/preload/host/spawn_strategy/process_override.cc:52-58 | A thread inside waitpid with WNOHANG never sleeps: until it has returned it has a step of its own that is enabled, whatever others do. |
| ProcessOverride.PollReturnsZero | src/preload/host/spawn_strategy/process_override.cc:52-58 | If it looks and a live child of that pid is not reported dead, its result is zero. |
| ProcessOverride.WaitSleeps | src/preload/host/spawn_strategy/process_override.cc:52-58 | Without WNOHANG it sleeps instead. |
| ProcessOverride.NextOwnStep | src/preload/host/spawn_strategy/supervisor.cc:66-140 | In every reachable state a thread inside a call can go on unless it is asleep. |
| ProcessOverride.GroupsArePassedOn | src/preload/host/spawn_strategy/process_override.cc:43-46 | The supervisor is asked exactly about positive pids, and about that pid. |
| ProcessOverride.InternalPidIsOwn | src/preload/host/spawn_strategy/supervisor.cc:126-140 | An internal pid is returned only if SpawnStarted named it for a spawn of that stub; the call is never told to try later. |
| EvLoopState.CollectGrows | src/base/evloop.cc:236-246 | Looking at descriptors puts only descriptors behind what is enabled and duplicates nothing. |
| EvLoopState.CollectMembers | src/base/evloop.cc:187-246 | Exactly the ready descriptors get enabled, besides what was enabled already. |
| EvLoopState.CollectOrder | src/base/evloop.cc:187-246 | They stand behind everything enabled before, once each, in the order in which they were found. |
| EvLoopState.CollectEmptyIff | src/base/evloop.cc:187-246 | Nothing is pending exactly when nothing was enabled and no descriptor is ready. |
| EvLoopState.WritesAddUp | src/base/evloop.cc:101-104 | Writes to the eventfd add up to 2^64 - 2, and one read takes them all. |
| EvLoopState.WithoutRemoves | src/base/evloop.cc:35-40 | Disabling removes exactly that source. |
| EvLoopState.TaskBagCollect | src/base/evloop.cc:236-246 | Looking at descriptors leaves the waiting tasks alone. |
| EvLoopState.TaskBagWithout | src/base/evloop.cc:35-40 | So does disabling an fd source. |
| EvLoopObject.EvLoop.constructor | src/base/evloop.cc:45-62 | A new loop has nothing enabled, an unreadable eventfd and is in the initial state. |
| EvLoopObject.EvLoop.WriteNotifyDefer | src/base/evloop.cc:101-104 | The eventfd is readable afterwards even when the counter is saturated; the queue is untouched. |
| EvLoopObject.EvLoop.ClearNotifyDeferFd | src/base/evloop.cc:275-278 | The counter is zero afterwards whether or not it was readable. |
| EvLoopObject.EvLoop.EnableAndNotify | src/base/evloop.cc:95-107 | The source is pending, once, behind the ones already pending, and the eventfd is readable even if the write failed. |
| EvLoopObject.EvLoop.Trigger | src/base/evloop.cc:86-93 | The same for a trigger, and its assertion fails exactly when the eventfd counter is saturated. |
| EvLoopObject.EvLoop.CollectReady | src/base/evloop.cc:236-246 | The ready descriptors queue up in order behind what is enabled. |
| EvLoopObject.EvLoop.PrepareWait | src/base/evloop.cc:187-196 | Reports pending exactly when something was enabled or a descriptor is ready; sd-event is then pending, otherwise armed. |
| EvLoopObject.EvLoop.DispatchOne | src/base/evloop.cc:236-257 | Picks something exactly when something is enabled or, unless already pending, a descriptor is ready: the oldest enabled source, or else the first ready descriptor; a pending loop only loses the source it picks. |
| BusThread.LocksStepBus | src/dbus/internal/bus_thread.cc:169-179 | The bus thread holds the loop's lock exactly while dispatching. |
| BusThread.LocksStepClient | src/dbus/internal/bus_thread.cc:74-116 | Clients hold the loop's lock one at a time. |
| BusThread.LocksStepFork | src/preload/host/spawn_strategy/bus_safe_fork.cc:33-56 | One thread at a time is inside the fork override. |
| BusThread.LoopStepBus | src/dbus/internal/bus_thread.cc:148-181 | sd-event is in the state that each control point of ThreadMain needs, with no source queued twice. |
| BusThread.LoopStepFork | src/dbus/internal/bus_thread.cc:66-90 | Join and restart leave sd-event initial, so the restarted loop may prepare again. |
| BusThread.PauseStepBus | src/dbus/internal/bus_thread.cc:148-181 | The thread exits only with the flag set, and the trigger is consumed exactly when the flag is set. |
| BusThread.PauseStepClient | src/dbus/internal/bus_thread.cc:74-82 | Only the forking thread arms the trigger, once per pause. |
| BusThread.PauseStepFork | src/dbus/internal/bus_thread.cc:66-90 | A restart clears the flag with the trigger disarmed; it never overwrites a joinable thread. |
| BusThread.WakeupStepBus | src/base/evloop.cc:187-234 | The bus thread goes to poll only with nothing enabled. |
| BusThread.WakeupStepClient | src/base/evloop.cc:86-107 | Enabling a source under a polling thread leaves the eventfd readable or a writer on its way, for any number of clients. |
| BusThread.WakeupStepFork | src/dbus/internal/bus_thread.cc:66-90 | Pausing and resuming lose no wakeup. |
| BusThread.ReadyIsServed | src/base/evloop.cc:187-246 | The bus thread polls exactly when nothing is enabled or ready, queues every ready descriptor, and dispatches whenever there is anything to dispatch. |
| BusThread.DrainedBeforeDispatch | src/base/evloop.cc:187-226 | However the thread gets past Wait, the eventfd is drained at that moment. |
| BusThread.EnabledByEvent | src/dbus/internal/bus_thread.cc:74-116 | What each submission, wake request and shutdown enables is in the queue after it, and a disabled watch is not. |
| BusThread.EnabledUntilPicked | src/base/evloop.cc:236-257 | An enabled source stays enabled until a dispatch picks it or its descriptor is disabled. |
| BusThread.HandlersRunWhenPicked | src/dbus/internal/bus_thread.cc:32-36 | A task executes exactly when it is picked; the flag is set exactly by picking the trigger and cleared only by Start. |
| BusThread.SubmitConserves | src/base/evloop.cc:95-107 | A submitted task is waiting exactly once. |
| BusThread.PopConserves | src/base/evloop.cc:312-336 | A dispatch moves at most one task from waiting to executed. |
| BusThread.TasksStepBus | src/dbus/internal/bus_thread.cc:148-181 | Submitted = executed + waiting, as multisets, over the bus thread's steps and its handlers' own submissions. |
| BusThread.TasksStepClient | src/dbus/internal/bus_thread.cc:92-116 | The same over SendCall, AddMatch, triggers and disabled watches. |
| BusThread.InvStep | src/dbus/internal/bus_thread.cc:64-198 | All of the above is inductive for any interleaving. |
| BusThread.InvAlways | src/dbus/internal/bus_thread.cc:64-198 | In every reachable state no wakeup is lost, no task is lost or run twice, and loop, locks and trigger agree. |
| BusShutdown.ForkIsBracketed | src/preload/host/spawn_strategy/bus_safe_fork.cc:30-57 | Every real fork happens with no bus thread; Start finds none; the parent leaves with the thread running again; Shutdown never joins a thread that is not joinable. |
| BusShutdown.CounterBounded | src/base/evloop.cc:86-93 | The eventfd counter never exceeds the number of events, so no trigger's assertion fails in a run shorter than 2^64 - 2 events. |
| BusShutdown.ExitsOnlyWhenAsked | src/dbus/internal/bus_thread.cc:64-90 | The thread function returns only while a Shutdown waits for it, with sd-event initial and the trigger disarmed. |
| BusShutdown.TasksRunExactlyOnce | src/dbus/bus.cc:45-46 | Across any pauses a task runs at most once, one not run is still enabled, and none runs while the thread is joined. |
| BusShutdown.ControlStepDescends | src/dbus/internal/bus_thread.cc:148-181 | Once the trigger is armed every control step of the bus thread lowers (sources ahead, control point). |
| BusShutdown.HandlerStepKeeps | src/dbus/internal/bus_thread.cc:24-38 | What a handler enables queues behind the shutdown trigger. |
| BusShutdown.ClientStepKeeps | src/dbus/internal/bus_thread.cc:92-116 | So does what another thread enables. |
| BusShutdown.ForkStepKeeps | src/preload/host/spawn_strategy/bus_safe_fork.cc:30-57 | No other fork call interferes with a pause in progress. |
| BusShutdown.MeasureStep | src/dbus/internal/bus_thread.cc:148-181 | Until the join no step raises the measure, and each control step lowers it. |
| BusShutdown.MeasureZeroIsExit | src/dbus/internal/bus_thread.cc:148-149 | The measure is zero if and only if the thread has left its loop. |
| BusShutdown.ShutdownIsBounded | src/dbus/internal/bus_thread.cc:74-90 | Over any run from arming to join the bus thread takes at most as many control steps as the measure said. |
| BusShutdown.StoppingNeverStuck | src/dbus/internal/bus_thread.cc:74-90 | While being stopped the thread can always move, or waits for a thread that can and that brings its next step nearer. |
| BusShutdown.ExitIsReachable | src/dbus/internal/bus_thread.cc:74-90 | Every run that ends while the thread is being stopped goes on to one in which the thread has exited. |
| BusChild.ChildSoundStep | src/base/evloop.cc:280-288 | Every step of the child leaves its loop and its tasks as they were at the fork, and moves only threads that submit or fork. |
| BusChild.ChildSoundAlways | src/base/evloop.cc:280-288 | So does every run of the child. |
| BusChild.ChildHasNoBus | src/preload/host/spawn_strategy/bus_safe_fork.cc:46-50 | In the forked child no bus thread ever runs: nothing is executed, and its own forks have nothing to pause. |
| BusChild.ChildForksAgain | src/preload/host/spawn_strategy/bus_safe_fork.cc:33-39 | The child can fork again at once: the override's lock is free in it. |
| BusChild.ChildNeverSubmits | src/dbus/internal/bus_thread.cc:92-116 | Nothing is ever submitted in the child, by SendCall or AddMatch, for any number of threads. |
| BusChild.TouchingTheLoopAborts | src/base/evloop.cc:35-40 | In the child every trigger and every disable ends in a failed assertion. |
| BusChild.ChildLockStaysHeld | src/dbus/internal/bus_thread.cc:92-93 | A loop lock that another thread held at the fork stays held in the child for good. |
| BusChild.SendCallNeverReturns | src/dbus/internal/bus_thread.cc:92-107 | In the child no call of SendCall ever returns. |
| BusChild.SendCallInChild | src/dbus/internal/bus_thread.cc:92-107 | It waits for the lock in every continuation if and only if another thread held the lock at the fork; a refused add can abort the child if and only if not. |
| BusChild.AddMatchLosesTask | src/dbus/internal/bus_thread.cc:109-116 | AddMatch returns in the child with nothing submitted. |
| BusChild.ForkRun | src/preload/host/spawn_strategy/bus_safe_fork.cc:41-44 | Both kinds of fork are reachable: with the loop's lock free, and in the middle of another thread's SendCall. |
| BusChild.SendCallBlocksOrAborts | src/dbus/internal/bus_thread.cc:92-107 | A run of each kind, from the start of the program to a SendCall in the child. |
| EventSourceState.ApplyKeepsSound | src/base/evloop.h:71-113 | After copy, move, drop, lift, trigger, disable and dispatch the count is live SourceRefs plus one if floating, and no operation touches a freed source. |
| EventSourceState.CountIsReferences | src/base/evloop.cc:296-336 | Over a whole life: freed, with destroy handlers run once, exactly when no SourceRef, no floating reference and no dispatch is left. |
| EventSourceState.OneShotFreedOnReturn | src/base/evloop.cc:327-333 | A one-shot source stops floating when its handler returns, and is freed then if and only if no SourceRef is left, even if the handler triggered it again. |
| EventSourceLife.RefsAreLive | src/base/evloop.h:71-78 | Over any life the references are the first SourceRef, plus copies and handlers' SourceRefs, less destroyed ones. |
| EventSourceLife.DispatchingIs | src/base/evloop.cc:312-336 | A source is dispatching exactly between the start of a dispatch and its return. |
| EventSourceLife.PermanentStays | src/base/evloop.cc:327-333 | A permanently enabled source stays on, floating and alive through any number of dispatches, with or without SourceRefs. |
| EventSourceLife.HangupEnds | src/base/evloop.cc:338-345 | A hang-up switches it off and runs its destroy handlers at once exactly when no SourceRef is left. |
| EventSourceLife.TriggeredIsPending | src/base/evloop.cc:86-93 | After a trigger the source is alive, floating and can be dispatched until its dispatch or until it is switched off. |
| EventSourceLife.RetriggerSurvivesReturn | src/base/evloop.cc:86-93 | A trigger inside the handler can still be dispatched after the handler has returned, if a SourceRef is left. |
| EventSourceLife.OffUntilTrigger | src/base/evloop.cc:35-40 | Once switched off, or dispatched for one shot, a source is not dispatched before the next trigger. |
| EventSourceLife.DisabledIsReleased | src/base/evloop.cc:35-40 | Once disabled, or hung up, the loop does not keep a source alive before the next trigger: it is freed exactly when no SourceRef and no dispatch is left. |
| EventSourceLife.FloatsIff | src/base/evloop.cc:294-336 | The loop holds its own reference exactly from set-up or a trigger until the source is disabled or its dispatch returns with the source not permanently on. |
| EventSourceLife.OneDispatchPerTrigger | src/base/evloop.cc:86-119 | A source set up for one shot is dispatched at most once plus once for each trigger. |
| EventSourceLife.TaskIsPending | src/base/evloop.cc:95-107 | A task's source can be dispatched until its dispatch, even if its SourceRef is dropped at once. |
| EventSourceObject.EventSource.constructor | src/base/evloop.cc:294-310 | Set-up leaves one SourceRef and one floating reference. |
| EventSourceObject.EventSource.SetFloating | src/base/evloop.cc:38-40 | Floating is counted once however often it is set; unsetting it frees an unused source unless it is dispatching. |
| EventSourceObject.EventSource.CopyRef | src/base/evloop.h:73-74 | A copied SourceRef is one more reference. |
| EventSourceObject.EventSource.DropRef | src/base/evloop.h:78 | A destroyed SourceRef is one less, and the last one frees a source that does not float. |
| EventSourceObject.EventSource.Trigger | src/base/evloop.cc:89-90 | Enabled once and floating, also inside its own handler. |
| EventSourceObject.EventSource.Disable | src/base/evloop.cc:35-40 | Switched off and no longer floating. |
| EventSourceObject.EventSource.BeginDispatch | src/base/evloop.cc:312-325 | The handler's SourceRef has a reference of its own, so the floating one is not given away. |
| EventSourceObject.EventSource.DropOnHangup | src/base/evloop.cc:338-345 | A hung-up fd source loses its floating reference and is freed on return if unreferenced. |
| EventSourceObject.EventSource.EndDispatch | src/base/evloop.cc:327-336 | A source not permanently on stops floating; a free that was deferred happens now. |
| FdAssignments.AppliedAvoids | src/helper/main.cc:102-108 | Success implies that no earlier target is a later source or target. |
| FdAssignments.SequentialIsSimultaneous | src/helper/main.cc:102-118 | For distinct open sources, success leaves every target with its source's initial description, closes sources that are not targets, and changes nothing else. |
| FdAssignments.SucceedsIff | src/helper/main.cc:102-118 | It succeeds if and only if every needed dup2 is accepted and no earlier target is a later source or a later target. |
| FdAssignments.SimultaneousIsUnique | src/helper/main.cc:102-118 | That description determines the resulting table. |
| FdAssignments.FirstFailureDecides | src/helper/main.cc:102-118 | For any list at all: either nothing stops it, or the first assignment that cannot be made does; those before it are made, and its source and all later ones are closed, or it is the assertion on an invalid descriptor. |
| FdProcess.Process.Dup2 | src/base/fd_map.cc:19-22 | Either the target refers to what the source does and nothing else changes, or nothing changes. |
| FdProcess.Process.Assign | src/base/fd_map.cc:12-26 | A source that is its own target stays open; otherwise the source is closed only after a successful dup2. |
| FdProcess.Process.CloseAll | src/base/unique_fd.h:43-49 | Destroying unassigned entries closes exactly their sources. |
| FdProcess.Process.ApplyFdMap | src/helper/main.cc:102-118 | The in-place loop yields the specified outcome and table, on success, refusal and failed dup2. |
| HelperArgs.ScanDigitsPrinted | src/base/fd_map.cc:28-30 | Decimal digits, scanned, give the number back, whatever follows. |
| HelperArgs.ScanPrinted | src/base/fd_map.cc:28-46 | A printed signed number, scanned, gives itself back and stops right behind it. |
| HelperArgs.DigitsAreCanonical | src/base/fd_map.cc:28-30 | Numbers are printed without leading zeros. |
| HelperArgs.ScanReads | src/base/fd_map.cc:39-43 | White space, a sign or none and digits are read as their decimal number, up to the first other character. |
| HelperArgs.ScanShape | src/base/fd_map.cc:39-43 | Nothing else is read. |
| HelperArgs.DeserializeSerialized | src/base/fd_map.cc:28-46 | Deserialize undoes Serialize for every assignment, and none is printed as the terminator. |
| HelperArgs.DeserializeIff | src/base/fd_map.cc:33-46 | An argument is an assignment exactly when a number, "=" and a number stand at its front; what follows does not matter. |
| HelperArgs.ParseBefore | src/helper/main.cc:85-93 | Printed assignments in front of any parsable tail are parsed as themselves. |
| HelperArgs.ParsedIff | src/helper/main.cc:85-100 | With a first "-" behind assignments only, the parser yields exactly these, in order, and what is behind it. |
| HelperArgs.ParseDecides | src/helper/main.cc:85-100 | It accepts exactly the lists with such a "-", and says "ended too soon" exactly when there is none and every argument is an assignment. |
| HelperArgs.ParsePrinted | src/helper/main.cc:82-100 | Printed map, "-", command parses to that map and that command, whatever the command contains. |
| HelperArgs.HelperSeesLauncherMap | src/base/launcher.cc:49-58 | With or without a tracing prefix, the helper sees mode "child", the launcher's map and the launcher's command. |
| HelperArgs.BuildCommandWrapper | src/base/launcher.cc:32-59 | The loop's output is tracing prefix, helper, mode, the serialized map in order, and the terminator. |
| HelperArgs.ParseFdMapFromArgs | src/helper/main.cc:82-100 | Succeeds exactly on a parsable list; yields its map and leaves the iterator at the command. |
| Pickle.Reader.ReadText | src/sandbox/mimic_strategy/fork.cc:82-92 | A failed read moves nothing. |
| Pickle.Reader.ReadInt | src/sandbox/mimic_strategy/fork.cc:122-141 | A failed read moves nothing. |
| Pickle.Reader.ReadUInt32 | src/preload/host/spawn_strategy/supervisor.cc:292-296 | A failed read moves nothing. |
| Pickle.Reader.ReadTexts | src/preload/host/spawn_strategy/supervisor.cc:279-288 | Succeeds exactly when that many strings come next, and returns them in order. |
| MimicFork.HandleFork | src/sandbox/mimic_strategy/fork.cc:73-150 | Up to the launch: the map and command, or their rejection, are a function of the message and the received descriptors; an argument count below one, or beyond the memory there is, is a crash and not a rejection. |
| MimicFork.ReadForkFds | src/sandbox/mimic_strategy/fork.cc:106-150 | Accepts exactly a positive count equal to the number of descriptors, with that many keys less one. |
| MimicFork.HostMessageIsRead | src/sandbox/mimic_strategy/fork.cc:73-150 | Every well-formed message is read in full: service at 4, then key plus 3 for each descriptor but the first. |
| MimicFork.AcceptedIsHostMessage | src/sandbox/mimic_strategy/fork.cc:73-150 | Nothing but a well-formed host message, with one descriptor more than keys and at least one argument, is accepted. |
| MimicFork.CrashesIff | src/sandbox/mimic_strategy/fork.cc:88-101 | The code crashes exactly for an argument count below one or beyond the memory there is. |
| MimicFork.SelfIsRewritten | src/sandbox/mimic_strategy/fork.cc:99-104 | Exactly a command /proc/self/exe is replaced, by the caller's executable, and no argument is. |
| MimicFork.ForkEndToEnd | src/helper/main.cc:82-119 | For any map, the helper reads exactly the zygote's map and command, succeeds if and only if nothing is clobbered and dup2 accepts, and then every entry arrives. |
| MimicFork.KeyAt | src/sandbox/mimic_strategy/fork.cc:136-150 | The i-th map entry is received descriptor i under the i-th key of the message plus 3. |
| MimicFork.ArrivedByKey | src/sandbox/mimic_strategy/fork.cc:112-150 | In terms of the message: descriptor i is found at its key plus 3, the service at 4. |
| MimicFork.HostToChild | src/sandbox/mimic_strategy/fork.cc:112-150 | The composition of message, map, command line, parser and assignments, from the host's message to the child's table. |
| ControlBuffer.SixteenFit | src/base/socket.cc:17-36 | With or without credentials the reader's buffer takes sixteen descriptors and not seventeen; more are cut to sixteen and flagged. |
| ControlBuffer.BufferSizes | src/base/socket.cc:17-29 | The buffers in bytes: 80 for sixteen descriptors, 112 with credentials. |
| ControlBuffer.SenderLengthCountsFds | src/base/socket.cc:28-38 | The sender's cmsg_len fits its buffer and the reader's division recovers the number of descriptors. |
| SpawnRequest.FulfillAfterSend | src/preload/host/spawn_strategy/supervisor.cc:255-299 | The supervisor recovers the stub's argv and ordered (fd, target) pairs if and only if there are at most sixteen; otherwise the first sixteen. |
| SpawnRequest.FulfilledWasSent | src/preload/host/spawn_strategy/supervisor.cc:270-299 | Nothing is fulfilled but the items that a stub sends for these arguments and this map. |
| SpawnRequest.CutRequest | src/preload/host/spawn_strategy/supervisor.cc:255-299 | Of a request longer than the buffer the supervisor spawns the same argv and descriptors if all the items it looks for arrived, and nothing otherwise. |
| SpawnRequest.RequestArrivesIff | src/sandbox/spawn_strategy/run.cc:95-119 | Argv and map arrive unchanged if and only if there are at most sixteen descriptors and the whole request fits into the buffer. |
| SpawnRequest.TargetsRoundTrip | src/sandbox/spawn_strategy/run.cc:105-109 | Targets survive the conversion to unsigned and back, negative ones included. |
| SpawnRequest.SendSpawnRequest | src/sandbox/spawn_strategy/run.cc:95-119 | Items and attached descriptors come in the order of arguments and map; sending fails exactly beyond the kernel's limit of descriptors. |
| SpawnRequest.FulfillSpawnRequest | src/preload/host/spawn_strategy/supervisor.cc:270-299 | Reading goes on after a truncated control message, for the descriptors that arrived; missing items fail the request. |
| SpawnRequest.ReadTargets | src/preload/host/spawn_strategy/supervisor.cc:290-299 | Succeeds exactly when there is a target for each descriptor, and pairs them in order. |
| StrUtil.PiecesAreFree | src/base/str_util.h:20-38 | No piece contains any of the delimiters. |
| StrUtil.JoinOfSplit | src/base/str_util.h:16-55 | Joining the pieces gives the string back, less one final delimiter. |
| StrUtil.SplitOfJoinFree | src/base/str_util.h:16-55 | Splitting a joined list of delimiter-free items whose last is not empty gives the list back. |
| StrUtil.SplitOfJoinIff | src/base/str_util.h:16-55 | It does so for exactly those lists. |
| StrUtil.FindFirstOf | src/base/str_util.h:25 | The position of the first delimiter from `start` on, or the end. |
| StrUtil.SplitInto | src/base/str_util.h:20-38 | The loop yields the pieces that the lemmas above are about. |
| StrUtil.JoinAll | src/base/str_util.h:40-55 | The loop yields the join that the lemmas above are about. |
| ZygoteState.ClassifyMeaning | src/sandbox/mimic_strategy/status.cc:22-77 | An exit code 128+n is classified like death by signal n; zero is normal, 1 to 128 abnormal, and nothing else is. |
| ZygoteState.ClassifyInNumbers | src/sandbox/mimic_strategy/status.cc:22-77 | Killed are exactly the words of signals 2, 9 and 15, with or without a core dump, and of exit codes 130, 137 and 143; crashed the other signals and the other codes above 128. |
| ZygoteState.ClassifiedWord | src/sandbox/mimic_strategy/status.cc:66-71 | The word sent is the child's own, except n * 256 + 127 for exit code 128 + n. |
| ZygoteState.InvAlways | src/sandbox/mimic_strategy/zygote.cc:72-86 | Over any run every child forked and not waited for is in `children_` (what else is in it: StaleIff), and each reap request sends SIGKILL at most once, its flag surviving every copy of the handler. |
| ZygoteState.StaleStepIff | src/sandbox/mimic_strategy/zygote.cc:72-86 | Exactly which steps leave, keep or clear a pid in `children_` whose child was waited for. |
| ZygoteState.StaleIff | src/sandbox/mimic_strategy/zygote.cc:72-86 | Over any run a pid is in `children_` beyond its child's life if and only if an unconfirmed fork or a reap timer left it there and no fork or status request came since. |
| ZygoteState.AgreementKeptIff | src/sandbox/mimic_strategy/zygote.cc:72-86 | One step keeps `children_` equal to the children not waited for if and only if it is neither of these two. |
| ZygoteState.AgreementAlwaysIff | src/sandbox/mimic_strategy/zygote.cc:72-86 | They are equal throughout a run if and only if every fork was confirmed and no reap timer collected a child. |
| ZygoteState.ReapedChildStays | src/sandbox/mimic_strategy/reap.cc:25-32 | A run with a confirmed fork after which a collected child is still in `children_`. |
| ZygoteState.UnconfirmedChildStays | src/sandbox/mimic_strategy/fork.cc:49-58 | A run of one unconfirmed fork that does the same. |
| ZygoteState.RunningIsTrue | src/sandbox/mimic_strategy/status.cc:42-82 | The answer is "running" if and only if the child is alive and not known dead. |
| ZygoteState.StatusAnswers | src/sandbox/mimic_strategy/status.cc:42-82 | The answer in every case: normal for a child unknown or gone, how a dead one ended, running for a live one unless it is known to be dead. |
| ZygoteState.ChainsAreRequested | src/sandbox/mimic_strategy/reap.cc:52-67 | Every reap chain was started by a request for a pid that was in the child set. |
| ZygoteState.RequestStartsChainIff | src/sandbox/mimic_strategy/reap.cc:61-66 | A request starts a chain exactly for a pid in the child set, and otherwise changes nothing. |
| ZygoteState.GoneStaysGone | src/sandbox/mimic_strategy/status.cc:79-81 | A pid that left the child set comes back only by a fork. |
| ZygoteState.NotRunningIsFinal | src/sandbox/mimic_strategy/status.cc:30-82 | After a not-running answer no later request for that pid says running, until it is forked anew. |
| ZygoteState.ChainPersists | src/sandbox/mimic_strategy/reap.cc:25-42 | A chain keeps its pid, never forgets its SIGKILL and never revives. |
| ZygoteState.ChainStops | src/sandbox/mimic_strategy/reap.cc:25-42 | While there is a child to be waited for, which dies once killed, a chain fires at most twice, by a decreasing measure. |
| ZygoteState.OrphanedChainNeverStops | src/sandbox/mimic_strategy/reap.cc:25-42 | A chain whose child someone else waited for stays armed for as long as the pid is unused. |
| ZygoteState.PresentUnlessCollected | src/sandbox/mimic_strategy/reap.cc:25-42 | A chain's child is there at each firing as long as no other event waits for it. |
| ZygoteState.ChainActiveOrCollected | src/sandbox/mimic_strategy/reap.cc:25-42 | Until the pid is forked again, a chain that has ended has left no child of that pid. |
| ZygoteState.ChainEndsIff | src/sandbox/mimic_strategy/reap.cc:25-42 | For a child that dies once killed and a pid not forked again: after two firings the chain has ended if and only if no other event waited for the child. |
| ZygoteState.StatusRequestOrphansChain | src/sandbox/mimic_strategy/status.cc:52-81 | A status request for a dead child under reaping is a run that orphans the chain. |
| ZygoteState.RebornIff | src/sandbox/mimic_strategy/zygote.cc:72-86 | A pid in use belongs to another child than before if and only if the earlier one was collected. |
| ZygoteState.KillsOtherChildIff | src/sandbox/mimic_strategy/reap.cc:25-42 | A chain's SIGKILL strikes another child than its request named if and only if that one was collected before the firing. |
| ZygoteState.ChainKillsSuccessor | src/sandbox/mimic_strategy/reap.cc:25-42 | A run in which it does. |
| ZygoteObject.MimicZygoteRunner.constructor | src/sandbox/mimic_strategy/zygote.cc:26-33 | No children and no timers at first. |
| ZygoteObject.MimicZygoteRunner.WaitPid | src/sandbox/mimic_strategy/status.cc:52-59 | Reaps exactly a finished child; distinguishes no child from not yet. |
| ZygoteObject.MimicZygoteRunner.HandleTerminationStatusRequest | src/sandbox/mimic_strategy/status.cc:30-82 | Answer and new child set for every case, unknown and already reaped pids included; a known-dead request is never answered "running". |
| ZygoteObject.MimicZygoteRunner.HandleReap | src/sandbox/mimic_strategy/reap.cc:52-67 | Exactly a tracked child gets a new chain. |
| ZygoteObject.MimicZygoteRunner.TimerFires | src/sandbox/mimic_strategy/reap.cc:25-42 | The chain ends only if this firing reaped the child; otherwise SIGKILL is sent unless it was before. |
| ZygoteObject.MimicZygoteRunner.TrackFork | src/sandbox/mimic_strategy/zygote.cc:73-79 | The child is tracked whether or not the host confirmed it; an unconfirmed one is no longer a process. |
| DBusTyping.AppendAllSnoc | src/dbus/bus_writable_message.h:27-74 | Checking appends one at a time is checking the whole message. |
| DBusGrammar.WellTypedIsFormed | src/dbus/bus_writable_message.h:27-74 | Every well-typed message is written from values: arrays of their element type, variants of their signature, entries in arrays. |
| DBusGrammar.WriteValues | src/dbus/bus_writable_message.h:27-74 | Every such message is well-typed. |
| DBusGrammar.WellTypedIff | src/dbus/bus_writable_message.h:27-74 | So the check append by append accepts exactly the grammar of the D-Bus type system. |
| Utf8Text.Utf8Iff | src/dbus/flatpak_portal_proxy.cc:128-132 | A string of bytes is valid exactly when it is the UTF-8 encoding of some text. |
| PortalMessage.CStrKeepsIff | src/dbus/flatpak_portal_proxy.cc:128-132 | A string passed by pointer survives if and only if it has no null character. |
| PortalMessage.MessageWriter.constructor | src/dbus/bus_writable_message.h:66-68 | An empty body, nothing open. |
| PortalMessage.MessageWriter.Write | src/dbus/bus_writable_message.h:21-51 | Any append that the D-Bus type system allows keeps the message well-typed with its containers tracked; the assertion has failed exactly if some value was refused. |
| PortalMessage.MessageWriter.WriteByteString | src/dbus/bus_writable_message.h:53-63 | One complete value of type `ay`, the terminating null included, leaving the open containers as they were. |
| PortalMessage.MessageWriter.WriteArgs | src/dbus/flatpak_portal_proxy.cc:106-113 | One byte array per argument, in order, inside an open `aay`. |
| PortalMessage.MessageWriter.WriteFds | src/dbus/flatpak_portal_proxy.cc:115-124 | One `{uh}` entry per assignment, in order. |
| PortalMessage.MessageWriter.WriteEnv | src/dbus/flatpak_portal_proxy.cc:126-133 | One `{ss}` entry per variable, in order. |
| PortalMessage.MessageWriter.WriteSandboxFlags | src/dbus/flatpak_portal_proxy.cc:143-150 | An entry with a variant of type `u`, fully closed, unless the flags are zero. |
| PortalMessage.MessageWriter.WriteExposeRo | src/dbus/flatpak_portal_proxy.cc:152-162 | An entry with a variant of type `ah`, its three containers closed innermost first, unless there are no descriptors. |
| PortalMessage.MessageWriter.WriteOptions | src/dbus/flatpak_portal_proxy.cc:137-163 | The options that apply, in order, leaving only the options array open. |
| PortalMessage.BuildSpawnMethodCall | src/dbus/flatpak_portal_proxy.cc:98-166 | Aborts exactly for an empty directory or argv, a descriptor that is not open, or environment text that is not UTF-8; otherwise every container is closed in LIFO order and the signature is ayaaya{uh}a{ss}ua{sv}. |
| PortalMessage.EncodeAcceptedIff | src/dbus/flatpak_portal_proxy.cc:98-166 | libdbus takes all values of the message if and only if all descriptors are open and the environment, as far as it is passed, is valid UTF-8. |
| PortalMessage.ForeignByteRefused | src/dbus/flatpak_portal_proxy.cc:126-133 | An environment with a byte that is no text. |
| PortalReading.GetArgsBack | src/dbus/flatpak_portal_proxy.cc:106-113 | Walking the written array yields the arguments and ends right behind it exactly when none contains a null character. |
| PortalReading.GetFdsBack | src/dbus/flatpak_portal_proxy.cc:115-124 | The same for the descriptor pairs. |
| PortalReading.GetEnvBack | src/dbus/flatpak_portal_proxy.cc:126-133 | The same for the environment pairs. |
| PortalReading.EnvPairsIff | src/dbus/flatpak_portal_proxy.cc:126-133 | The environment arrives unchanged if and only if no name or value has a null character. |
| PortalReading.GetHandlesBack | src/dbus/flatpak_portal_proxy.cc:156-161 | The exposed descriptors come back in order. |
| PortalReading.GetOptionsBack | src/dbus/flatpak_portal_proxy.cc:137-163 | Each option comes back, or its default where it was left out. |
| PortalReading.DecodeEncoded | src/dbus/flatpak_portal_proxy.cc:98-166 | The portal's walk in signature order recovers directory, argv, descriptors, environment, flags and options if and only if directory and argv contain no null character; otherwise it finds no C string. |
| MessageReading.MessageReader.constructor | src/dbus/bus_readable_message.h:63 | A reader starts in front of the first value. |
| MessageReading.MessageReader.Read | src/dbus/bus_readable_message.h:29-46 | Takes exactly a value of the wanted type; a failed read moves nothing. |
| MessageReading.MessageReader.EnterContainer | src/dbus/bus_readable_message.h:48-60 | Opens exactly a container of the wanted kind, with a second reader inside it; this reader does not move. |
| MessageReading.OnlyBasicPassed | src/dbus/bus_readable_message.h:29-60 | Whatever is called, what a reader has passed are basic values. |
| MessageReading.ReachesIff | src/dbus/bus_readable_message.h:29-60 | The k-th value can be reached by some calls if and only if no container stands before it. |
| MessageReading.SpawnCallNotRead | src/dbus/bus_readable_message.h:48-60 | No calls get this reader past the first value of a Spawn message. |
| MessageReading.ReadTwo | src/dbus/flatpak_portal_proxy.cc:70-96 | SpawnStarted and SpawnExited are read exactly when they begin with two unsigned integers, in order. |
| MessageReading.ReadPid | src/dbus/flatpak_portal_proxy.cc:168-182 | The reply is read exactly when it begins with an unsigned integer. |

## Left out

- SupervisorRuns.DeliveredAtMostOnce: says at most once, not eventually; with the stored descriptor invalid there is no delivery at all.
- SupervisorWakeup.NoWakeupEverLost: assumes that Spawn calls succeed and internal pids are real; `NoWakeupLostIff` is the exact condition for all runs.
- ProcessOverride.WaitpidAnswers: WUNTRACED and WCONTINUED, which the override ignores, and the call that it passes on to libc.
- BusShutdown.ShutdownIsBounded: counts the bus thread's own steps; that the scheduler lets it take them is not modelled.
- BusChild.ChildOf: the flag that keeps the supervisor's descriptor from being closed in the child.
- SpawnRequest.CutRequest: takes the number of items that fit as given, because it depends on the pickle's byte format; a stream that delivers a request in several reads.
- HelperArgs.DeserializeSerialized: numbers are mathematical integers; decimal overflow beyond 32 bits is undefined in sscanf and not modelled.
- MimicFork.HandleFork: ends before the launch, so a failing `Launcher::Run` and the reply to the host are not part of it; how many strings there is memory for is given; overflow of a key plus 3 beyond 32 bits is undefined in C++ and not modelled.
- SpawnRequest.FulfillSpawnRequest: the outcome of `Launcher::Run`.
- MimicFork.HostToChild: the environment and flags that `Launcher::Run` chooses, and flatpak-spawn itself.
- ZygoteState.InvAlways: assumes that waitpid fails only for a pid that is no child.
- EventSourceObject.EventSource.Trigger: the eventfd write that follows belongs to `EvLoopObject.EvLoop.Trigger`.
- The guarded value as an object: its mutex and condition variable are control points of the threads in the step relation.
- `ThreadMain` as an imperative loop: it is a step relation, because other threads step in between.
- The record pointer that `GetExitStatus` and `WaitForExitStatus` use after erasing it: modelled as taking the record out of the map.
- `SourceRef` assignment, whose `swap` leaves the destroy handlers behind, and the list of destroy handlers itself.
- Failures of sd-event, epoll and eventfd calls, and sd-event's and libdbus's internals.
- The unlocked `Wait` as a data race: each of its sd-event calls is one step.
- The `kill` override and `SendSignal`, which hold the map's mutex during a blocking bus call.
- `Bus::Shutdown` at the end of the program (src/preload/host/spawn_strategy/initialize.cc:37), which stops the bus thread without the fork override's mutex.
- D-Bus's limits on the size of a message and of an array.
- `Bus::SignalConnect` and `HandleSignal`, D-Bus watch and timeout glue.
- Parse errors in the zygote's `HandleMessage`, its sandbox-status command, and timers other than reap timers.
- `FindAllFds`, `Launcher::Run`, the chroot helper, the other LD_PRELOAD overrides, settings and logging: I/O or straight-line code.
- The pickle byte format: the nickle library is not part of this model.
