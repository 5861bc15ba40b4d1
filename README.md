# Syscall-injection scheduler of panda-rs

This project models the scheduler that lets analysis code inject system calls
into a guest under the PANDA execution engine (`panda-rs/src/syscall_injection.rs`).
Analysis code queues a computation for the current guest thread with
`run_injector`. The first call installs a `sys_enter` callback and a `sys_return`
callback, then polls the new computation at once. That first poll issues the
computation's first system call; it does not move the guest's pc. The return
event, on a fork child or while the current injector's asid is live, stores the
result, sets `SHOULD_LOOP_AGAIN`, sends the guest back to the syscall
instruction with `set_pc` and leaves the CPU loop. The next `sys_enter` runs
`poll_injectors`: the head of the thread's queue takes the stored result and
runs on to its next system call or to its end. The `sys_enter` callback then
sends the guest back to the syscall instruction again only when
`SHOULD_LOOP_AGAIN` was set. Finishing is decided per thread: as soon as a `sys_enter`
fires on a thread whose entry exists and whose queue is empty, both callbacks
are disabled, even while other threads still have work queued. `fork` hands the child's computation over through a single-slot mailbox
(`CHILD_INJECTOR`). `run_injector_next_syscall` defers `run_injector` to the next
syscall.

The model is a single-threaded state machine over the process-wide state:

- `INJECTORS`: per-thread FIFO queues of `(asid, computation)`;
- `CURRENT_REGS_BACKUP`;
- `CHILD_INJECTOR`;
- the flags `WAITING_FOR_SYSCALL`, `CURRENT_INJECTOR_ASID` and `SHOULD_LOOP_AGAIN`;
- the last injected syscall number and its result cell;
- the backed-up register subset of the guest CPU;
- the registered callbacks.

The files:

- `injection_types.dfy` holds the values.
- `injection_model.dfy` holds one function per operation of the source, each with a contract.
- `scheduler.dfy` holds the form the source takes: a `Scheduler` class whose fields are the globals. Its methods update those fields in place. `poll_injectors` is a `while` loop there. Every method is proved to have exactly the effect of its function in `InjectionModel`.
- `injection_properties.dfy` holds:
  - the FIFO, asid and emptiness guarantees of the poll loop;
  - the take-once fork slot;
  - the lifecycle of the callbacks over any sequence of engine events (`InjectionEngine.Run`);
  - the scenario "issue `X`, get 5, issue `Y`, get 9" run end to end.
- `injection_backups.dfy` holds the register-backup invariant: a thread has a backup exactly while the head of its queue is a started `run_injector` wrapper, and the backup is the snapshot that wrapper restores. It is proved for one poll, for the poll loop, and for every run of engine events from process start (`InjectionBackupRuns.BackupIsRunningWrapper`).
- `injection_exchange.dfy` holds the run of a computation made of any number of blocks, each some host-side steps followed by one syscall, then more host-side steps. From process start to the end, each syscall is issued and its result returned and delivered, in order. Then the registers are restored, the backup is dropped, the queue is empty and the callbacks are off (`InjectionExchange.SyscallsInOrder`).

How a Rust `Future` is modelled:

- An `Injector` is a script of steps plus the register snapshot it holds. One poll runs one step.
  - A step that does not wait for a syscall answers `Pending` without the waiting flag. The loop's `continue` polls the same head again. So a run of host-side steps inside one Rust `poll` becomes several model polls with the same overall effect.
  - An empty script is `Ready`.
- `Syscall(n)` issues the syscall:
  - it records `n` as the last injected syscall;
  - it puts `n` in RAX;
  - it records an `Issue(n)` event;
  - it becomes `AwaitReturn`.
- `AwaitReturn` takes the result that `sys_return` stored (`set_ret_value`). If there is none yet, it sets `WAITING_FOR_SYSCALL`.
- `Fork(child)` is the body of `fork`:
  - without a backup it panics;
  - otherwise it fills the slot and issues syscall 57.
- The wrapper of `run_injector` is `[SaveRegs] + user + [RestoreRegs, ClearBackup]`. The wrapper of a fork child is `child + [RestoreRegs]`, and it holds the parent's snapshot.
- A panic of the source (`expect`/`unwrap`) is an `Outcome.Panic` carrying the fault. The state returned with it is the state at the point of the panic.
- Engine effects become `Event`s in `trace`: `set_pc` is `SetPc(pc)` and `cpu_loop_exit_noexc` is `ExitLoop`. Disabling a callback clears its enabled flag.

Three details of the code shape the model:

- Entries of `INJECTORS` are never removed; the poll loop only pops elements of a queue (lines 329-331). So `is_first` holds only while the map has never held an entry, and the callbacks are installed at most once per process. Once disabled, they stay disabled for good (`InjectionLifecycle.DisabledForever`).
- For a thread with no entry, `poll_injectors` answers `false` ("not finished", line 344). `true` comes only for a thread whose entry exists and whose queue is empty (line 347).
- Finishing disables both callbacks (lines 232-233 and 252-253); it does not uninstall them. Since the test at line 231 looks only at the current thread, a thread that has finished switches the callbacks off for every thread, and work other threads still hold is never polled again (`InjectionLifecycle.EmptyThreadDisables`, `InjectionLifecycle.OtherThreadStranded`). The model keeps this behaviour.

## Model

| member | source | states |
|---|---|---|
| InjectionModel.GetBackedUpRegs | panda-rs/src/syscall_injection.rs:264-268 | the backup of the thread if there is one, `None` otherwise |
| InjectionRuntime.Scheduler.GetBackedUpRegs | panda-rs/src/syscall_injection.rs:264-268 | reading the `CURRENT_REGS_BACKUP` field answers what the model's lookup answers |
| InjectionRuntime.Scheduler.SetBackedUpRegs | panda-rs/src/syscall_injection.rs:270-272 | the backup map gains or replaces the thread's snapshot and nothing else changes |
| InjectionRuntime.Scheduler.UnsetBackedUpRegs | panda-rs/src/syscall_injection.rs:274-276 | the thread's backup is removed and nothing else changes |
| InjectionModel.ForkPrologue | panda-rs/src/syscall_injection.rs:114-121 | `fork` panics exactly when the thread has no backup, and then changes nothing; otherwise the slot holds exactly the pair (backup, child), replacing whatever it held, and nothing else changes |
| InjectionRuntime.Scheduler.ForkPrologue | panda-rs/src/syscall_injection.rs:114-121 | the in-place update of the slot has the effect of `InjectionModel.ForkPrologue` |
| InjectionModel.TakeChild | panda-rs/src/syscall_injection.rs:126-129 | the slot is empty afterwards; the result is its old content exactly when it held one; an empty slot panics with `NoChildInjector`; nothing else changes |
| InjectionRuntime.Scheduler.GetChildInjector | panda-rs/src/syscall_injection.rs:126-129 | take-and-unwrap on the slot field has the effect of `InjectionModel.TakeChild` |
| InjectionProperties.ForkThenTake | panda-rs/src/syscall_injection.rs:114-129 | after a `fork` with a backup, the next take returns exactly the backup and the child's code, and leaves the slot empty |
| InjectionBackups.WrapIsFresh | panda-rs/src/syscall_injection.rs:169-178 | the `run_injector` wrapper around user code is a fresh wrapper: the backup step, then the user's steps only, then restore and drop the backup |
| InjectionBackups.ChildWrapIsQueued | panda-rs/src/syscall_injection.rs:205-211 | the fork child's wrapper is the user's steps followed by restoring the parent's registers, with no backup step of its own |
| InjectionBackups.PollOnceKeepsBackup | panda-rs/src/syscall_injection.rs:169-178 | one poll keeps the thread's backup matched to the head: present exactly while the head is a started wrapper, equal to its snapshot. A finished head leaves no backup. Other threads' backups are kept. A fork fills the slot with user code |
| InjectionBackups.PollQueueKeepsBackup | panda-rs/src/syscall_injection.rs:320-342 | the same through the whole poll loop, across pops: every entry behind the head is still fresh |
| InjectionBackups.PollInjectorsKeepsBackup | panda-rs/src/syscall_injection.rs:311-348 | the same for `poll_injectors`; a thread without an entry keeps every backup |
| InjectionBackups.RestoreGivesBackup | panda-rs/src/syscall_injection.rs:170-176 | restoring from a started wrapper writes back exactly the registers the thread has backed up |
| InjectionBackups.RunInjectorFirstBackup | panda-rs/src/syscall_injection.rs:164-254 | after the first `run_injector` the thread's backup matches its head and no other thread has one |
| InjectionBackupRuns.PushKeeps | panda-rs/src/syscall_injection.rs:166-211 | queuing a fresh wrapper or a fresh child at the back keeps every backup matched to its queue |
| InjectionBackupRuns.RunInjectorKeeps | panda-rs/src/syscall_injection.rs:161-256 | `run_injector` on user code keeps the backup invariant |
| InjectionBackupRuns.SysReturnKeeps | panda-rs/src/syscall_injection.rs:187-226 | the `sys_return` callback keeps the backup invariant; a fork child is queued with no backup of its own |
| InjectionBackupRuns.NextSyscallKeeps | panda-rs/src/syscall_injection.rs:289-293 | the one-shot callback keeps the backup invariant |
| InjectionBackupRuns.ApplyKeeps | panda-rs/src/syscall_injection.rs:161-293 | every entry point and callback fed user code keeps the backup invariant |
| InjectionBackupRuns.RunKeeps | panda-rs/src/syscall_injection.rs:161-293 | the same over any sequence of engine events and analysis calls |
| InjectionBackupRuns.BackupIsRunningWrapper | panda-rs/src/syscall_injection.rs:169-178 | after any run from process start, a thread has a backup iff the head of its queue is a `run_injector` wrapper that has saved the registers and not dropped them, and the backup is exactly the snapshot that wrapper restores |
| InjectionModel.PollOnce | panda-rs/src/syscall_injection.rs:169-178 | one poll of a computation: `Ready` exactly when nothing is left to run, and then nothing changes. It panics only at a `fork` without a backup. `Pending` without the waiting flag means progress. A newly set waiting flag means the head awaits a result not yet delivered, and nothing else changed. Only the backup step changes the snapshot; it stores the live registers as the thread's backup. Restoring puts every saved register back. Clearing removes the thread's backup. A fork fills the slot and issues syscall 57. The queues, the callbacks, the loop-again flag and the current asid are never touched |
| InjectionModel.PollOnceSteps | panda-rs/src/syscall_injection.rs:169-178 | the whole new state of one poll, for every kind of step. A host-side step only moves on. A syscall step records its number as the last injected syscall, puts it in RAX, records `Issue(n)`, discards any stored result and becomes an await. An await with a stored result consumes it, records `Delivered(v)` and moves on; without one it only sets the waiting flag. A fork with a backup fills the slot with (backup, child) and becomes syscall 57. The backup step stores the live registers as the thread's backup and as the snapshot. Restoring writes the snapshot over the registers. Clearing removes the thread's backup. In each case nothing else changes, and no step but a `fork` touches the fork slot |
| InjectionRuntime.Scheduler.PollHead | panda-rs/src/syscall_injection.rs:327 | polling a head in place has the effect of `InjectionModel.PollOnce` |
| InjectionModel.PollQueue | panda-rs/src/syscall_injection.rs:320-342 | the `while let` loop changes only the thread's own queue. It keeps the callbacks, the loop-again flag and the next-syscall callbacks. It answers `true` exactly when the queue is now empty |
| InjectionModel.PollInjectors | panda-rs/src/syscall_injection.rs:311-348 | the waiting flag is cleared first. A thread with no entry gets `false` and no queue changes. A head in another asid gets `false`; its asid is stored as the current injector asid and the queue is unchanged. `true` comes exactly when the thread has an entry and its queue is now empty. No other thread's queue changes and no entry disappears |
| InjectionRuntime.Scheduler.PollInjectors | panda-rs/src/syscall_injection.rs:311-348 | the `while` loop over the head of the thread's queue, with its invariant, has the effect of `InjectionModel.PollInjectors` |
| InjectionProperties.PollQueueFifo | panda-rs/src/syscall_injection.rs:320-342 | entries are popped strictly from the front. Only entries of the live asid were run. Of the rest only the new head may have advanced, and only when it is in the live asid; everything behind it is untouched. `false` is answered only at a remaining head that is in another asid or waits for a syscall, and that head's asid is the stored current asid. When the loop started without the waiting flag and stops at a head of the live asid, that head is awaiting a syscall result, none is stored, and the waiting flag is set |
| InjectionProperties.WaitingHeadStays | panda-rs/src/syscall_injection.rs:320-337 | for any queues: a head of the live asid that awaits a result nobody stored stays at the front, the waiting flag is set, and the loop answers `false` with nothing else changed |
| InjectionProperties.ReadyHeadPopped | panda-rs/src/syscall_injection.rs:320-333 | for any queues: a finished head of the live asid is popped and the loop goes on with the rest of the queue |
| InjectionProperties.PendingHeadContinues | panda-rs/src/syscall_injection.rs:327-340 | a head of the live asid that made progress without waiting is polled again in place |
| InjectionProperties.PollQueuePanicIsFork | panda-rs/src/syscall_injection.rs:320-342 | the loop panics only with `ForkOutsideInjector`, at a head of the live asid whose next step is a `fork`, on a thread with no backup |
| InjectionProperties.PollInjectorsFifo | panda-rs/src/syscall_injection.rs:316-347 | the same for the whole `poll_injectors`: no entry means `false` and no queue change; `true` iff the queue is now empty; `false` leaves a nonempty queue, and when its head is in the live asid that head awaits a syscall result, none is stored, and the waiting flag is set. A live head awaiting an unstored result makes it answer `false` with only the waiting flag and the current asid changed; a finished live head is popped and the loop goes on; a panic is a `fork` without a backup at the live head |
| InjectionModel.Push | panda-rs/src/syscall_injection.rs:166-169 | `entry().or_default().push_future` appends the entry at the back of the thread's queue and creates the entry if missing. Other queues and the rest of the state are unchanged |
| InjectionModel.RunInjector | panda-rs/src/syscall_injection.rs:161-256 | one wrapped entry, tagged with the live asid, is appended at the back of the thread's queue. If the map already had an entry, nothing else changes. Otherwise the callbacks are installed with this pc, enabled and disabled together, and they stay enabled exactly when the first poll leaves work in the queue. That first poll is `poll_injectors` on the state with the single new entry and the callbacks installed: the result is that poll's state with at most the callbacks disabled, and it panics exactly when that poll does, with the same fault |
| InjectionProperties.RunInjectorFirstPolls | panda-rs/src/syscall_injection.rs:164-254 | the first `run_injector` of the process polls its entry at once: the thread's queue is the result of polling, in FIFO order, the queue holding just the new wrapped entry, and when work is left its head is waiting for a syscall result |
| InjectionRuntime.Scheduler.RunInjector | panda-rs/src/syscall_injection.rs:161-256 | the in-place push, install and first poll have the effect of `InjectionModel.RunInjector` |
| InjectionModel.SysReturn | panda-rs/src/syscall_injection.rs:187-226 | the event is a fork child iff the last injected syscall is 57 and RAX is 0. Then the slot is consumed (an empty slot panics, changing nothing) and the child, wrapped to restore the parent's registers, is appended to the thread's queue. Loop-back (loop-again flag, result stored, `set_pc` to the captured pc, leave the CPU loop) happens iff fork child or the current injector asid is the live asid; otherwise nothing changes. The callbacks are never touched, and besides the loop-again flag, the result cell, the recorded effects, the queues and the slot nothing changes |
| InjectionRuntime.Scheduler.SysReturnHook | panda-rs/src/syscall_injection.rs:187-226 | the callback body on the fields has the effect of `InjectionModel.SysReturn` |
| InjectionModel.SysEnter | panda-rs/src/syscall_injection.rs:230-246 | polls. A panic of the poll is a panic of the callback, with the poll's state and fault. Otherwise the new state is the poll's state except that both callbacks are disabled exactly when the poll finds the thread's queue empty, the loop-again flag is consumed (always false afterwards), and `set_pc` plus leaving the CPU loop are added to what the poll emitted exactly when the flag was set. The captured pc and the set of threads with entries are unchanged |
| InjectionModel.Disable | panda-rs/src/syscall_injection.rs:232-233 | `disable()` on both callbacks: both are off, the captured pc is kept, nothing else changes |
| InjectionModel.Replay | panda-rs/src/syscall_injection.rs:219-241 | `set_pc` to the captured pc followed by leaving the CPU loop is recorded after everything emitted so far, and nothing else changes |
| InjectionRuntime.Scheduler.SysEnterHook | panda-rs/src/syscall_injection.rs:230-246 | the callback body on the fields has the effect of `InjectionModel.SysEnter` |
| InjectionRuntime.Scheduler.DisableHooks | panda-rs/src/syscall_injection.rs:232-233 | both callbacks are disabled, keeping the pc they captured |
| InjectionModel.RunInjectorNextSyscall | panda-rs/src/syscall_injection.rs:285-288 | registers one enabled one-shot callback holding the computation, at the next free index, and changes nothing else |
| InjectionRuntime.Scheduler.RunInjectorNextSyscall | panda-rs/src/syscall_injection.rs:285-294 | the in-place registration has the effect of `InjectionModel.RunInjectorNextSyscall` |
| InjectionModel.NextSyscall | panda-rs/src/syscall_injection.rs:289-293 | a callback whose computation was already taken panics and changes nothing. Otherwise the computation is taken and run as `run_injector` on this thread at this pc, from the state in which the callback's slot is already empty: outcome and state are those of that `run_injector`, except that after success this callback is disabled. The thread gets an entry; no other callback changed |
| InjectionRuntime.Scheduler.NextSyscallHookFired | panda-rs/src/syscall_injection.rs:289-293 | the callback body on the fields has the effect of `InjectionModel.NextSyscall` |
| InjectionRuntime.Scheduler.constructor | panda-rs/src/syscall_injection.rs:103-112 | the globals start empty: no queues, no backups, empty slot, flags cleared, asid 0, no callbacks |
| InjectionProperties.ChildSlotTakenOnce | panda-rs/src/syscall_injection.rs:196-198 | after a fork-child return has consumed the slot, the very next fork-child return panics with `NoChildInjector` and changes nothing |
| InjectionLifecycle.InitialInv | panda-rs/src/syscall_injection.rs:164-183 | at process start no callback is registered and no queue exists |
| InjectionLifecycle.ApplyGrows | panda-rs/src/syscall_injection.rs:164-183 | every entry point and callback keeps the invariant: callbacks registered iff `INJECTORS` holds an entry, both enabled or both disabled. No thread loses its entry. Registered callbacks keep their pc and are never enabled again once disabled |
| InjectionLifecycle.RunGrows | panda-rs/src/syscall_injection.rs:161-256 | the same over any sequence of engine events and analysis calls |
| InjectionLifecycle.DisabledForever | panda-rs/src/syscall_injection.rs:164 | once the callbacks are disabled they stay disabled over any later sequence of events, and every queue only grows at the back |
| InjectionLifecycle.EmptyThreadDisables | panda-rs/src/syscall_injection.rs:230-234 | a sys_enter on a thread whose entry exists with an empty queue disables both callbacks and changes no queue, whatever other threads hold |
| InjectionLifecycle.OtherThreadStranded | panda-rs/src/syscall_injection.rs:230-234 | after that, over any later events, the callbacks stay off and another thread's queued entries are never popped |
| InjectionExchange.ReturnStores | panda-rs/src/syscall_injection.rs:214-224 | the return of a result that is not a fork child's, while the thread waits in the current injector's asid, stores the result and replays the syscall, and nothing else changes |
| InjectionExchange.LocalsStep | panda-rs/src/syscall_injection.rs:320-340 | the poll loop runs any number of host-side steps at the live head one after another in place; only the current asid and the head's script change |
| InjectionExchange.HostThenIssue | panda-rs/src/syscall_injection.rs:320-340 | host-side steps and then a syscall at the live head: the syscall is issued (last syscall, RAX, `Issue(n)`, stored result discarded), the head now awaits it, the waiting flag is set and the loop answers `false`; nothing else changes |
| InjectionExchange.EnterDelivers | panda-rs/src/syscall_injection.rs:230-241 | the next sys_enter delivers the stored result to the head, runs its host-side steps, issues its next syscall, stops at its result, and, the loop-again flag being set, replays the syscall; the whole new state is given |
| InjectionExchange.ExchangesInOrder | panda-rs/src/syscall_injection.rs:187-246 | a head waiting on syscall `n` and then running the blocks `cs` (host-side steps, then a syscall), answered with results `vs`: each result is delivered after its syscall was issued and before the next one is, in order; afterwards the head waits on the last syscall with RAX holding it; no other queue, no backup, the callbacks and the fork slot are unchanged |
| InjectionExchange.FirstIssue | panda-rs/src/syscall_injection.rs:161-254 | the first `run_injector` on a computation that runs host-side steps and then a syscall: the registers are backed up, the syscall is issued with no replay, and the thread waits for its result, with the callbacks installed and on |
| InjectionExchange.EnterFinishes | panda-rs/src/syscall_injection.rs:230-246 | the sys_enter after the last result: it is delivered, the remaining host-side steps run, the snapshot is written back over the registers, the backup is dropped, the queue is emptied, both callbacks are disabled and the syscall is replayed once more |
| InjectionExchange.LastExchange | panda-rs/src/syscall_injection.rs:187-246 | the return of the last result and the sys_enter after it, as one run of engine events: the whole final state |
| InjectionExchange.SyscallsInOrder | panda-rs/src/syscall_injection.rs:161-256 | from process start, a computation of blocks `[c] + cs` (host-side steps, then a syscall), then `k` host-side steps, answered with `vs`: no panic, and it emits exactly the first syscall issued, then per result but the last its replay, its delivery, the next syscall issued and its replay, then the last result's replay, its delivery and a final replay. Afterwards the queue is empty, both callbacks are disabled, no backup is left, the fork slot and the result cell are empty, and, when the start holds RAX, the registers are those of the start |
| InjectionScenario.TwoSyscalls | panda-rs/src/syscall_injection.rs:161-256 | queueing a computation that issues `X` then `Y`, with returns 5 and 9 and a spurious enter in between, yields, in this order: `X` issued; a replay on the return of 5; on the next enter 5 delivered, `Y` issued and a replay; nothing on the second enter; a replay on the return of 9; on the last enter 9 delivered and a final replay. Afterwards the queue is empty, both callbacks are disabled, no backup is left and the registers are restored |

## Left out

- `panda-rs/src/api/regs.rs` is not part of this model. Registers are a map from an x86_64 slot number to a 64-bit word. `SyscallRegs::backup`/`restore` are a copy of, and a write-back over, that map.
- The `Future`/`Waker`/`Pin` machinery and the no-op waker (lines 296-302, 312-314). A computation is a finite script of steps, polled one step at a time.
- The submodules `pinned_queue`, `syscall_future`, `syscall_regs`, `conversion` and `syscalls` are not part of this model. The model assumes the behaviour the shown code relies on:
  - a syscall future writes its number to RAX, records it as the last injected syscall, and waits with `WAITING_FOR_SYSCALL` set until `set_ret_value` has delivered the result;
  - `PinnedQueue` is a FIFO with `push_future`, `current_mut` and `pop`.
- Syscall arguments and their marshalling (`conversion`), and argument registers other than RAX, are not modelled.
- Engine and FFI calls are inputs of the operations:
  - the current thread;
  - the current asid;
  - the syscall pc;
  - RAX on return.
- `set_pc`, `cpu_loop_exit_noexc` and callback registration become recorded events and flags. The guest re-executing the syscall after a replay is the engine's business: the engine is modelled as an arbitrary sequence of events (`InjectionEngine.Run`).
- A computation that never becomes ready on its own (busy host-side I/O) is not modelled: scripts are finite.
- `DashMap`/`Mutex`/atomics and memory ordering (the model is single-threaded), and `println!`/`dbg!` output.
- The syscall result cell is modelled as one global cell. The source keeps it inside the unseen `syscall_future` module.
- Issuing a syscall discards any result still stored (`retCell := None` in `InjectionModel.PollOnce`, stated by `InjectionModel.PollOnceSteps`). This is an assumption about the unseen `syscall_future` module.
- `InjectionBackups` and `InjectionBackupRuns` state the backup invariant for runs in which the analysis code hands over user code only (`UserScript`: plain steps, syscalls and forks). The entry points themselves accept any script.
- The guest CPU is one register file (`cpu`) shared by all threads, and only the scheduler writes it. The engine's return value reaches the model as a parameter of the return event, never through RAX. A thread switch leaves `cpu` unchanged, so the backup step of every thread snapshots the same map.
- InjectionExchange.SyscallsInOrder: its computations do not fork, and a syscall whose return is a fork child's (syscall 57 answered with 0) is excluded, because that return queues a second computation on the thread. The same holds for `InjectionExchange.ExchangesInOrder`. The fork child path is stated by `InjectionModel.SysReturn` and `InjectionProperties.ForkThenTake`.
- InjectionExchange.SyscallsInOrder: states that the registers are back to those of the start only when the start holds RAX. The snapshot writes back only the registers it holds, so otherwise RAX keeps the number of the last syscall.
- `InjectionProperties.ChildSlotTakenOnce`: states only that the very next fork-child return finds the slot empty, not that it stays empty across later events until the next `fork`. `InjectionModel.PollOnceSteps` does state that no step but a `fork` touches the slot.
