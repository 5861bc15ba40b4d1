/**
  The scheduler as the source runs it: process-wide state updated in place by
  the entry points and by the two callbacks. Every method is proved to have
  the effect of its function in `InjectionModel` on the abstract state `Abs()`.
 */
module InjectionRuntime {
  import opened InjectionTypes
  import M = InjectionModel

  class Scheduler {
    var injectors: map<ThreadId, seq<Entry>>  // INJECTORS
    var backups: map<ThreadId, Regs>          // CURRENT_REGS_BACKUP
    var child: Option<ChildInjector>          // CHILD_INJECTOR
    var waiting: bool                         // WAITING_FOR_SYSCALL
    var injectorAsid: Word                    // CURRENT_INJECTOR_ASID
    var loopAgain: bool                       // SHOULD_LOOP_AGAIN
    var lastSyscall: Word                     // what `last_injected_syscall()` answers
    var retCell: Option<Word>                 // the result that `set_ret_value` hands to the awaited syscall
    var cpu: Regs                             // the live registers that a snapshot covers
    var trace: seq<Event>                     // effects asked of the execution engine, in order
    var hooks: Option<Hooks>                  // the sys_enter / sys_return callbacks, once installed
    var nextHooks: seq<NextSyscallHook>       // callbacks of `run_injector_next_syscall`

    /** The abstract value of the process-wide state. */
    function Abs(): State
      reads this
    {
      State(injectors, backups, child, waiting, injectorAsid, loopAgain,
            lastSyscall, retCell, cpu, trace, hooks, nextHooks)
    }

    constructor (regs: Regs)
      ensures Abs() == M.Initial(regs)
    {
      injectors, backups, child := map[], map[], None;
      waiting, injectorAsid, loopAgain := false, 0, false;
      lastSyscall, retCell, cpu, trace := 0, None, regs, [];
      hooks, nextHooks := None, [];
    }

    /** `get_backed_up_regs`: the backup of thread `tid`, if any. */
    function GetBackedUpRegs(tid: ThreadId): (r: Option<Regs>)
      reads this
      ensures r == M.GetBackedUpRegs(Abs(), tid)
    {
      if tid in backups then Some(backups[tid]) else None
    }

    /** `set_backed_up_regs` */
    method SetBackedUpRegs(tid: ThreadId, regs: Regs)
      modifies this
      ensures Abs() == old(Abs()).(backups := old(backups)[tid := regs])
    {
      backups := backups[tid := regs];
    }

    /** `unset_backed_up_regs` */
    method UnsetBackedUpRegs(tid: ThreadId)
      modifies this
      ensures Abs() == old(Abs()).(backups := old(backups) - {tid})
    {
      backups := backups - {tid};
    }

    /** What `fork` does before its syscall: fill the handoff slot, replacing what it held. */
    method ForkPrologue(tid: ThreadId, script: Script) returns (r: Outcome<()>)
      modifies this
      ensures (Abs(), r) == M.ForkPrologue(old(Abs()), tid, script)
    {
      var regs := GetBackedUpRegs(tid);
      if regs.None? {
        return Panic(ForkOutsideInjector);
      }
      child := Some(ChildInjector(regs.value, script));
      return Ok(());
    }

    /** `get_child_injector`: take the slot; an empty slot panics. */
    method GetChildInjector() returns (r: Outcome<ChildInjector>)
      modifies this
      ensures (Abs(), r) == M.TakeChild(old(Abs()))
    {
      var slot := child;
      child := None;
      if slot.None? {
        return Panic(NoChildInjector);
      }
      return Ok(slot.value);
    }

    /** Poll the future of one queue entry of thread `tid` once. */
    method PollHead(tid: ThreadId, inj: Injector) returns (next: Injector, p: Outcome<Poll>)
      modifies this
      ensures M.PollOnce(old(Abs()), tid, inj) == M.Polled(Abs(), next, p)
    {
      if inj.steps == [] {
        return inj, Ok(Ready);
      }
      var rest := inj.steps[1..];
      match inj.steps[0]
      case Local =>
        next, p := inj.(steps := rest), Ok(Pending);
      case Syscall(n) =>
        lastSyscall, retCell := n, None;
        cpu := cpu[SYSCALL_RET := n];
        trace := trace + [Issue(n)];
        next, p := inj.(steps := [AwaitReturn] + rest), Ok(Pending);
      case AwaitReturn =>
        if retCell.Some? {
          trace := trace + [Delivered(retCell.value)];
          retCell := None;
          next, p := inj.(steps := rest), Ok(Pending);
        } else {
          waiting := true;
          next, p := inj, Ok(Pending);
        }
      case Fork(script) =>
        var o := ForkPrologue(tid, script);
        if o.Panic? {
          return inj, Panic(o.fault);
        }
        next, p := inj.(steps := [Syscall(FORK)] + rest), Ok(Pending);
      case SaveRegs =>
        var snapshot := cpu;
        SetBackedUpRegs(tid, snapshot);
        next, p := Injector(rest, snapshot), Ok(Pending);
      case RestoreRegs =>
        cpu := cpu + inj.saved;
        next, p := inj.(steps := rest), Ok(Pending);
      case ClearBackup =>
        UnsetBackedUpRegs(tid);
        next, p := inj.(steps := rest), Ok(Pending);
    }

    /** `poll_injectors` for thread `tid` while address space `asid` is live. */
    method PollInjectors(tid: ThreadId, asid: Word) returns (r: Outcome<bool>)
      modifies this
      ensures (Abs(), r) == M.PollInjectors(old(Abs()), tid, asid)
    {
      waiting := false;
      if tid !in injectors {
        return Ok(false);
      }
      ghost var start := Abs();
      while injectors[tid] != []
        invariant tid in injectors
        invariant M.PollQueue(Abs(), tid, asid) == M.PollQueue(start, tid, asid)
        decreases |injectors[tid]|, M.HeadWeight(injectors[tid])
      {
        var head := injectors[tid][0];
        injectorAsid := head.asid;
        if head.asid != asid {
          return Ok(false);
        }
        var next, p := PollHead(tid, head.injector);
        match p
        case Panic(f) =>
          return Panic(f);
        case Ok(Ready) =>
          injectors := injectors[tid := injectors[tid][1..]];
        case Ok(Pending) =>
          injectors := injectors[tid := [head.(injector := next)] + injectors[tid][1..]];
          if waiting {
            return Ok(false);
          }
      }
      return Ok(true);
    }

    /** `disable()` on the sys_enter and sys_return callbacks. */
    method DisableHooks()
      requires hooks.Some?
      modifies this
      ensures Abs() == M.Disable(old(Abs()))
    {
      hooks := Some(hooks.value.(enterOn := false, returnOn := false));
    }

    /** `run_injector(pc, injector)` called on thread `tid` in address space `asid`. */
    method RunInjector(tid: ThreadId, asid: Word, pc: Word, user: Script) returns (r: Outcome<()>)
      modifies this
      ensures (Abs(), r) == M.RunInjector(old(Abs()), tid, asid, pc, user)
    {
      var isFirst := injectors == map[];
      var q := if tid in injectors then injectors[tid] else [];
      injectors := injectors[tid := q + [Entry(asid, M.Wrap(user))]];
      if isFirst {
        hooks := Some(Hooks(pc, true, true));
        var done := PollInjectors(tid, asid);
        if done.Panic? {
          return Panic(done.fault);
        }
        if done.value {
          DisableHooks();
        }
      }
      return Ok(());
    }

    /** The `sys_return` callback on thread `tid` in address space `asid`; RAX holds `ret`. */
    method SysReturnHook(tid: ThreadId, asid: Word, ret: Word) returns (r: Outcome<()>)
      requires hooks.Some?
      modifies this
      ensures (Abs(), r) == M.SysReturn(old(Abs()), tid, asid, ret)
    {
      var isForkChild := if lastSyscall == FORK then ret == 0 else false;
      if isForkChild {
        var c := GetChildInjector();
        if c.Panic? {
          return Panic(c.fault);
        }
        var q := if tid in injectors then injectors[tid] else [];
        injectors := injectors[tid := q + [Entry(asid, M.ChildWrap(c.value))]];
      }
      if isForkChild || injectorAsid == asid {
        loopAgain := true;
        retCell := Some(ret);
        trace := trace + [SetPc(hooks.value.pc), ExitLoop];
      }
      return Ok(());
    }

    /** The `sys_enter` callback on thread `tid` in address space `asid`. */
    method SysEnterHook(tid: ThreadId, asid: Word) returns (r: Outcome<()>)
      requires hooks.Some?
      modifies this
      ensures (Abs(), r) == M.SysEnter(old(Abs()), tid, asid)
    {
      var done := PollInjectors(tid, asid);
      if done.Panic? {
        return Panic(done.fault);
      }
      if done.value {
        DisableHooks();
      }
      var again := loopAgain;
      loopAgain := false;
      if again {
        trace := trace + [SetPc(hooks.value.pc), ExitLoop];
      }
      return Ok(());
    }

    /** `run_injector_next_syscall`: returns the index of the callback it registers. */
    method RunInjectorNextSyscall(user: Script) returns (h: nat)
      modifies this
      ensures (Abs(), h) == M.RunInjectorNextSyscall(old(Abs()), user)
    {
      h := |nextHooks|;
      nextHooks := nextHooks + [NextSyscallHook(Some(user), true)];
    }

    /** The one-shot callback number `h` firing on a syscall at `pc`. */
    method NextSyscallHookFired(h: nat, tid: ThreadId, asid: Word, pc: Word) returns (r: Outcome<()>)
      requires h < |nextHooks|
      modifies this
      ensures (Abs(), r) == M.NextSyscall(old(Abs()), h, tid, asid, pc)
    {
      var pending := nextHooks[h].pending;
      if pending.None? {
        return Panic(InjectorTakenTwice);
      }
      nextHooks := nextHooks[h := nextHooks[h].(pending := None)];
      r := RunInjector(tid, asid, pc, pending.value);
      if r.Panic? {
        return;
      }
      nextHooks := nextHooks[h := nextHooks[h].(enabled := false)];
    }
  }
}
