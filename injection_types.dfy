/**
  Values shared by the syscall-injection scheduler: machine words, thread
  identities, register snapshots, the resumable computations that stand in for
  Rust futures, and the process-wide state of the scheduler.
 */
module InjectionTypes {

  /** An unsigned 64-bit guest word (`target_ulong` on x86_64, and the `u64` of the atomics). */
  type Word = x: int | 0 <= x < 0x1_0000_0000_0000_0000

  /** The x86_64 system call number of fork; only x86_64 defines it. */
  const FORK: Word := 57

  /** A general-purpose register slot of x86_64 (RAX = 0 ... R15 = 15). */
  type Reg = r: nat | r < 16

  /** RAX: carries the system call number on entry and its return value on exit. */
  const SYSCALL_RET: Reg := 0

  /** A register snapshot: register slot to raw value. */
  type Regs = map<Reg, Word>

  datatype Option<T> = None | Some(value: T)

  /** Identity of a guest execution context. */
  datatype ThreadId = ThreadId(pid: Word, tid: Word)

  /**
    One step of a resumable computation. `Local`, `Syscall` and `Fork` are what
    user code does; `AwaitReturn` is a syscall that was issued and waits for its
    result; `SaveRegs`, `RestoreRegs` and `ClearBackup` are the steps of the
    wrappers that the scheduler puts around user code.
   */
  datatype Op =
    | Local                  // host-side logic, or a nested future that is not ready yet
    | Syscall(num: Word)     // `syscall(num, ..).await`, not yet issued
    | AwaitReturn            // issued, waiting for the return value to be delivered
    | Fork(child: seq<Op>)   // `fork(child).await`
    | SaveRegs               // `SyscallRegs::backup()` + `set_backed_up_regs`
    | RestoreRegs            // `backed_up_regs.restore()`
    | ClearBackup            // `unset_backed_up_regs()`

  type Script = seq<Op>

  /**
    A step that user code can write: host logic, a syscall, or a fork whose child
    is user code too. The wrapper steps and `AwaitReturn` belong to the scheduler.
   */
  predicate UserOp(op: Op) {
    match op
    case Local => true
    case Syscall(_) => true
    case Fork(child) => UserScript(child)
    case _ => false
  }

  /** A computation written by user code: every step is a user step. */
  predicate UserScript(script: Script) {
    forall i :: 0 <= i < |script| ==> UserOp(script[i])
  }

  /** A queued computation: the steps still to run and the snapshot it holds. */
  datatype Injector = Injector(steps: Script, saved: Regs)

  /** A queue entry: the asid captured at enqueue time and the computation. */
  datatype Entry = Entry(asid: Word, injector: Injector)

  /** The content of the fork handoff slot: the parent's backup and the child's code. */
  datatype ChildInjector = ChildInjector(regs: Regs, script: Script)

  datatype Poll = Ready | Pending

  /** The panics of the source. */
  datatype Fault =
    | ForkOutsideInjector   // `fork` without a register backup for the thread
    | NoChildInjector       // `get_child_injector` on an empty slot
    | InjectorTakenTwice    // a next-syscall hook fired after its injector was taken

  datatype Outcome<T> = Ok(value: T) | Panic(fault: Fault)

  /** Effects on the guest that the scheduler asks of the execution engine. */
  datatype Event =
    | Issue(num: Word)        // the guest is set up to execute system call `num`
    | Delivered(value: Word)  // a suspended syscall resumed with this return value
    | SetPc(pc: Word)         // `regs::set_pc`
    | ExitLoop                // `cpu_loop_exit_noexc`

  /** The two scheduler callbacks, installed once, with the pc they captured. */
  datatype Hooks = Hooks(pc: Word, enterOn: bool, returnOn: bool)

  /** The one-shot sys_enter callback of `run_injector_next_syscall`. */
  datatype NextSyscallHook = NextSyscallHook(pending: Option<Script>, enabled: bool)

  /**
    The process-wide state: `INJECTORS`, `CURRENT_REGS_BACKUP`, `CHILD_INJECTOR`,
    the flags `WAITING_FOR_SYSCALL`, `CURRENT_INJECTOR_ASID`, `SHOULD_LOOP_AGAIN`,
    the last injected syscall number and its result cell, the backed-up register
    subset of the live guest context, the effects asked of the engine so far, and
    the registered callbacks.
   */
  datatype State = State(
    injectors: map<ThreadId, seq<Entry>>,
    backups: map<ThreadId, Regs>,
    child: Option<ChildInjector>,
    waiting: bool,
    injectorAsid: Word,
    loopAgain: bool,
    lastSyscall: Word,
    retCell: Option<Word>,
    cpu: Regs,
    trace: seq<Event>,
    hooks: Option<Hooks>,
    nextHooks: seq<NextSyscallHook>)
}
