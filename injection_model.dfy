/**
  The scheduler as pure functions over the process-wide `State`: one function
  per operation of `syscall_injection.rs`. The `Scheduler` class performs the
  same operations in place and is proved equal to these functions; the lemmas
  in `InjectionProperties` prove what the source promises about them.
 */
module InjectionModel {
  import opened InjectionTypes

  /** Polls an op takes when none of them has to wait. */
  function OpWeight(op: Op): nat {
    match op
    case Syscall(_) => 2  // issue, then take the result
    case Fork(_) => 3     // fill the slot, then the fork syscall
    case _ => 1
  }

  /** Polls `steps` takes to finish when no poll has to wait for a syscall result. */
  function Weight(steps: Script): nat {
    if steps == [] then 0 else OpWeight(steps[0]) + Weight(steps[1..])
  }

  function HeadWeight(q: seq<Entry>): nat {
    if q == [] then 0 else Weight(q[0].injector.steps)
  }

  /** The queue of `tid`, empty when `INJECTORS` has no entry for it. */
  function Queue(s: State, tid: ThreadId): seq<Entry> {
    if tid in s.injectors then s.injectors[tid] else []
  }

  /** The state when the process starts: every map and the slot empty, every flag cleared. */
  function Initial(cpu: Regs): State {
    State(map[], map[], None, false, 0, false, 0, None, cpu, [], None, [])
  }

  /** `get_backed_up_regs` for thread `tid`. */
  function GetBackedUpRegs(s: State, tid: ThreadId): (r: Option<Regs>)
    ensures r.Some? <==> tid in s.backups
    ensures r.Some? ==> r.value == s.backups[tid]
  {
    if tid in s.backups then Some(s.backups[tid]) else None
  }

  /**
    The part of `fork` that runs before its syscall: look up the register backup
    of the running computation and put it, with the child's code, into the slot.
   */
  function ForkPrologue(s: State, tid: ThreadId, child: Script): (r: (State, Outcome<()>))
    ensures r.1.Panic? <==> tid !in s.backups
    ensures r.1.Panic? ==> r.0 == s && r.1.fault == ForkOutsideInjector
    ensures r.1.Ok? ==> r.0.child == Some(ChildInjector(s.backups[tid], child))
    ensures r.0 == s.(child := r.0.child)
  {
    match GetBackedUpRegs(s, tid)
    case None => (s, Panic(ForkOutsideInjector))
    case Some(regs) => (s.(child := Some(ChildInjector(regs, child))), Ok(()))
  }

  /** `get_child_injector`: take the slot, panicking when it is empty. */
  function TakeChild(s: State): (r: (State, Outcome<ChildInjector>))
    ensures r.0 == s.(child := None)
    ensures r.1.Ok? <==> s.child.Some?
    ensures r.1.Ok? ==> r.1.value == s.child.value
    ensures r.1.Panic? ==> r.1.fault == NoChildInjector
  {
    match s.child
    case None => (s, Panic(NoChildInjector))
    case Some(c) => (s.(child := None), Ok(c))
  }

  /** The result of polling one computation once. */
  datatype Polled = Polled(s: State, inj: Injector, poll: Outcome<Poll>)

  /**
    Poll the computation `inj` of thread `tid` once: run its first step.
    Only an issued syscall whose result has not arrived sets the waiting flag.
   */
  function PollOnce(s: State, tid: ThreadId, inj: Injector): (r: Polled)
    ensures r.s.injectors == s.injectors && r.s.hooks == s.hooks && r.s.nextHooks == s.nextHooks
    ensures r.s.loopAgain == s.loopAgain && r.s.injectorAsid == s.injectorAsid
    ensures r.poll == Ok(Ready) <==> inj.steps == []
    ensures r.poll == Ok(Ready) ==> r.s == s && r.inj == inj
    ensures r.poll.Panic? <==> inj.steps != [] && inj.steps[0].Fork? && tid !in s.backups
    ensures r.poll.Panic? ==> r.s == s && r.poll.fault == ForkOutsideInjector
    ensures r.poll == Ok(Pending) && !r.s.waiting ==> Weight(r.inj.steps) < Weight(inj.steps)
    ensures r.poll == Ok(Pending) && r.s.waiting && !s.waiting ==>
      inj.steps[0] == AwaitReturn && s.retCell == None && r.inj == inj && r.s == s.(waiting := true)
    ensures inj.steps != [] && inj.steps[0] != SaveRegs ==> r.inj.saved == inj.saved
    ensures inj.steps != [] && inj.steps[0] == SaveRegs ==>
      r.inj.saved == s.cpu && r.s.backups == s.backups[tid := s.cpu]
    ensures inj.steps != [] && inj.steps[0] == RestoreRegs ==>
      forall g :: g in inj.saved ==> g in r.s.cpu && r.s.cpu[g] == inj.saved[g]
    ensures inj.steps != [] && inj.steps[0] == ClearBackup ==> tid !in r.s.backups
    ensures inj.steps != [] && inj.steps[0].Fork? && tid in s.backups ==>
      r.s.child == Some(ChildInjector(s.backups[tid], inj.steps[0].child)) &&
      r.inj.steps == [Syscall(FORK)] + inj.steps[1..]
  {
    if inj.steps == [] then Polled(s, inj, Ok(Ready))
    else
      var rest := inj.steps[1..];
      match inj.steps[0]
      case Local => Polled(s, inj.(steps := rest), Ok(Pending))
      case Syscall(n) =>
        var issued := s.(lastSyscall := n, retCell := None, cpu := s.cpu[SYSCALL_RET := n],
                         trace := s.trace + [Issue(n)]);
        Polled(issued, inj.(steps := [AwaitReturn] + rest), Ok(Pending))
      case AwaitReturn =>
        (match s.retCell
         case Some(v) =>
           Polled(s.(retCell := None, trace := s.trace + [Delivered(v)]), inj.(steps := rest), Ok(Pending))
         case None => Polled(s.(waiting := true), inj, Ok(Pending)))
      case Fork(child) =>
        var (s1, o) := ForkPrologue(s, tid, child);
        if o.Panic? then Polled(s1, inj, Panic(o.fault))
        else Polled(s1, inj.(steps := [Syscall(FORK)] + rest), Ok(Pending))
      case SaveRegs =>
        var snapshot := s.cpu;
        Polled(s.(backups := s.backups[tid := snapshot]), Injector(rest, snapshot), Ok(Pending))
      case RestoreRegs => Polled(s.(cpu := s.cpu + inj.saved), inj.(steps := rest), Ok(Pending))
      case ClearBackup => Polled(s.(backups := s.backups - {tid}), inj.(steps := rest), Ok(Pending))
  }

  /**
    The whole new state after one poll, step by step. A host step changes
    nothing the scheduler sees. A syscall step records its number as the last
    injected syscall, puts it in RAX, records the issue, discards any stored
    result and becomes an await; an await consumes a stored result and records
    its delivery, and without one only sets the waiting flag. A `fork` with a
    backup only fills the slot and becomes syscall 57. The backup step
    snapshots the registers into the computation and the backup map, the
    restore step writes the snapshot back, and the drop step removes the
    thread's backup. No step but a `fork` touches the fork slot.
   */
  lemma PollOnceSteps(s: State, tid: ThreadId, inj: Injector)
    ensures var r := PollOnce(s, tid, inj);
      && (inj.steps == [] || !inj.steps[0].Fork? ==> r.s.child == s.child)
      && (inj.steps != [] && inj.steps[0] == Local ==>
            r == Polled(s, inj.(steps := inj.steps[1..]), Ok(Pending)))
      && (inj.steps != [] && inj.steps[0].Fork? && tid in s.backups ==>
            r == Polled(s.(child := Some(ChildInjector(s.backups[tid], inj.steps[0].child))),
                        inj.(steps := [Syscall(FORK)] + inj.steps[1..]), Ok(Pending)))
      && (inj.steps != [] && inj.steps[0] == SaveRegs ==>
            r == Polled(s.(backups := s.backups[tid := s.cpu]), Injector(inj.steps[1..], s.cpu), Ok(Pending)))
      && (inj.steps != [] && inj.steps[0] == RestoreRegs ==>
            r == Polled(s.(cpu := s.cpu + inj.saved), inj.(steps := inj.steps[1..]), Ok(Pending)))
      && (inj.steps != [] && inj.steps[0] == ClearBackup ==>
            r == Polled(s.(backups := s.backups - {tid}), inj.(steps := inj.steps[1..]), Ok(Pending)))
      && (inj.steps != [] && inj.steps[0].Syscall? ==>
            var n := inj.steps[0].num;
            && r.poll == Ok(Pending) && r.inj == inj.(steps := [AwaitReturn] + inj.steps[1..])
            && r.s == s.(lastSyscall := n, retCell := None, cpu := s.cpu[SYSCALL_RET := n],
                         trace := s.trace + [Issue(n)]))
      && (inj.steps != [] && inj.steps[0] == AwaitReturn ==>
            && r.poll == Ok(Pending)
            && (s.retCell.Some? ==>
                  r.inj == inj.(steps := inj.steps[1..]) &&
                  r.s == s.(retCell := None, trace := s.trace + [Delivered(s.retCell.value)]))
            && (s.retCell.None? ==> r.inj == inj && r.s == s.(waiting := true)))
  {
  }

  /**
    The `while let` loop of `poll_injectors` over the queue of `tid`: `Ok(true)`
    exactly when it leaves the loop because the queue is empty.
   */
  function PollQueue(s: State, tid: ThreadId, asid: Word): (r: (State, Outcome<bool>))
    requires tid in s.injectors
    ensures tid in r.0.injectors && r.0.injectors == s.injectors[tid := r.0.injectors[tid]]
    ensures r.0.hooks == s.hooks && r.0.loopAgain == s.loopAgain && r.0.nextHooks == s.nextHooks
    ensures r.1 == Ok(true) <==> r.0.injectors[tid] == []
    decreases |s.injectors[tid]|, HeadWeight(s.injectors[tid])
  {
    var q := s.injectors[tid];
    if q == [] then (s, Ok(true))
    else
      var s1 := s.(injectorAsid := q[0].asid);
      if q[0].asid != asid then (s1, Ok(false))
      else
        var p := PollOnce(s1, tid, q[0].injector);
        match p.poll
        case Panic(f) => (p.s, Panic(f))
        case Ok(Ready) => PollQueue(p.s.(injectors := p.s.injectors[tid := q[1..]]), tid, asid)
        case Ok(Pending) =>
          var s2 := p.s.(injectors := p.s.injectors[tid := [q[0].(injector := p.inj)] + q[1..]]);
          if p.s.waiting then (s2, Ok(false)) else PollQueue(s2, tid, asid)
  }

  /** `poll_injectors`: clear the waiting flag, then run the loop over the current thread's queue. */
  function PollInjectors(s: State, tid: ThreadId, asid: Word): (r: (State, Outcome<bool>))
    ensures tid !in s.injectors ==> r == (s.(waiting := false), Ok(false))
    ensures Queue(s, tid) != [] && Queue(s, tid)[0].asid != asid ==>
      r == (s.(waiting := false, injectorAsid := Queue(s, tid)[0].asid), Ok(false))
    ensures r.0.injectors.Keys == s.injectors.Keys
    ensures r.1 == Ok(true) <==> tid in s.injectors && r.0.injectors[tid] == []
    ensures forall t :: t != tid && t in s.injectors ==> r.0.injectors[t] == s.injectors[t]
    ensures r.0.hooks == s.hooks && r.0.loopAgain == s.loopAgain && r.0.nextHooks == s.nextHooks
  {
    var s0 := s.(waiting := false);
    if tid !in s0.injectors then (s0, Ok(false)) else PollQueue(s0, tid, asid)
  }

  /** `disable()` on both scheduler callbacks. */
  function Disable(s: State): (r: State)
    requires s.hooks.Some?
    ensures r.hooks.Some? && r.hooks.value.pc == s.hooks.value.pc
    ensures !r.hooks.value.enterOn && !r.hooks.value.returnOn
    ensures r == s.(hooks := r.hooks)
  {
    s.(hooks := Some(s.hooks.value.(enterOn := false, returnOn := false)))
  }

  /** The wrapper of `run_injector`: back up, run the user code, restore, drop the backup. */
  function Wrap(user: Script): Injector {
    Injector([SaveRegs] + user + [RestoreRegs, ClearBackup], map[])
  }

  /** The wrapper of a fork child: no backup of its own; restores the parent's registers. */
  function ChildWrap(c: ChildInjector): Injector {
    Injector(c.script + [RestoreRegs], c.regs)
  }

  /** The queue map with `e` appended to the back of the queue of `tid` (`entry().or_default().push_future`). */
  function Push(s: State, tid: ThreadId, e: Entry): (r: State)
    ensures Queue(r, tid) == Queue(s, tid) + [e]
    ensures r.injectors.Keys == s.injectors.Keys + {tid}
    ensures forall t :: t != tid && t in s.injectors ==> r.injectors[t] == s.injectors[t]
    ensures r == s.(injectors := r.injectors)
  {
    s.(injectors := s.injectors[tid := Queue(s, tid) + [e]])
  }

  /**
    `run_injector`: queue the wrapped computation for the current thread and
    asid; only when `INJECTORS` was empty install the callbacks and poll at once.
   */
  function RunInjector(s: State, tid: ThreadId, asid: Word, pc: Word, user: Script): (r: (State, Outcome<()>))
    ensures r.0.injectors.Keys == s.injectors.Keys + {tid}
    ensures r.0.nextHooks == s.nextHooks && r.0.loopAgain == s.loopAgain
    ensures s.injectors != map[] ==>
      r.1 == Ok(()) && r.0 == s.(injectors := r.0.injectors) &&
      Queue(r.0, tid) == Queue(s, tid) + [Entry(asid, Wrap(user))] &&
      forall t :: t != tid && t in s.injectors ==> r.0.injectors[t] == s.injectors[t]
    ensures s.injectors == map[] ==>
      r.0.hooks.Some? && r.0.hooks.value.pc == pc && r.0.hooks.value.enterOn == r.0.hooks.value.returnOn
    ensures s.injectors == map[] && r.1.Ok? ==> (r.0.hooks.value.enterOn <==> Queue(r.0, tid) != [])
    ensures s.injectors == map[] ==>
      var p := PollInjectors(s.(injectors := map[tid := [Entry(asid, Wrap(user))]],
                                hooks := Some(Hooks(pc, true, true))), tid, asid);
      r.0 == p.0.(hooks := r.0.hooks) && (r.1.Ok? <==> p.1.Ok?) && (p.1.Panic? ==> r.1.fault == p.1.fault)
  {
    var isFirst := s.injectors == map[];
    var s1 := Push(s, tid, Entry(asid, Wrap(user)));
    if !isFirst then (s1, Ok(()))
    else
      assert Queue(s, tid) + [Entry(asid, Wrap(user))] == [Entry(asid, Wrap(user))];
      var s2 := s1.(hooks := Some(Hooks(pc, true, true)));
      var (s3, done) := PollInjectors(s2, tid, asid);
      match done
      case Panic(f) => (s3, Panic(f))
      case Ok(d) => (if d then Disable(s3) else s3, Ok(()))
  }

  /** `set_pc` back to the captured syscall pc and `cpu_loop_exit_noexc`. */
  function Replay(s: State): (r: State)
    requires s.hooks.Some?
    ensures r == s.(trace := r.trace) && r.trace == s.trace + [SetPc(s.hooks.value.pc), ExitLoop]
  {
    s.(trace := s.trace + [SetPc(s.hooks.value.pc), ExitLoop])
  }

  /** Whether a return event is the child side of an injected fork. */
  predicate IsForkChild(s: State, ret: Word) {
    s.lastSyscall == FORK && ret == 0
  }

  /**
    The body of the `sys_return` callback for thread `tid` in address space
    `asid`, where the return register holds `ret`.
   */
  function SysReturn(s: State, tid: ThreadId, asid: Word, ret: Word): (r: (State, Outcome<()>))
    requires s.hooks.Some?
    ensures r.0.hooks == s.hooks && r.0.nextHooks == s.nextHooks
    ensures r.1.Panic? <==> IsForkChild(s, ret) && s.child.None?
    ensures r.1.Panic? ==> r.0 == s && r.1.fault == NoChildInjector
    ensures r.1.Ok? && IsForkChild(s, ret) ==>
      r.0.child == None && r.0.injectors.Keys == s.injectors.Keys + {tid} &&
      Queue(r.0, tid) == Queue(s, tid) + [Entry(asid, ChildWrap(s.child.value))] &&
      forall t :: t != tid && t in s.injectors ==> r.0.injectors[t] == s.injectors[t]
    ensures !IsForkChild(s, ret) ==> r.0.injectors == s.injectors && r.0.child == s.child
    ensures r.1.Ok? && (IsForkChild(s, ret) || s.injectorAsid == asid) ==>
      r.0.loopAgain && r.0.retCell == Some(ret) &&
      r.0.trace == s.trace + [SetPc(s.hooks.value.pc), ExitLoop]
    ensures !(IsForkChild(s, ret) || s.injectorAsid == asid) ==> r == (s, Ok(()))
    ensures r.0 == s.(loopAgain := r.0.loopAgain, retCell := r.0.retCell, trace := r.0.trace,
                      injectors := r.0.injectors, child := r.0.child)
  {
    var forkChild := IsForkChild(s, ret);
    if forkChild then
      var (s1, c) := TakeChild(s);
      match c
      case Panic(f) => (s1, Panic(f))
      case Ok(ci) =>
        var s2 := Push(s1, tid, Entry(asid, ChildWrap(ci)));
        (Replay(s2.(loopAgain := true, retCell := Some(ret))), Ok(()))
    else if s.injectorAsid == asid then
      (Replay(s.(loopAgain := true, retCell := Some(ret))), Ok(()))
    else
      (s, Ok(()))
  }

  /**
    The body of the `sys_enter` callback: poll, disable both callbacks when
    every computation of the thread has finished, and consume the loop-again flag.
   */
  function SysEnter(s: State, tid: ThreadId, asid: Word): (r: (State, Outcome<()>))
    requires s.hooks.Some?
    ensures r.0.nextHooks == s.nextHooks && r.0.hooks.Some? && r.0.hooks.value.pc == s.hooks.value.pc
    ensures r.0.injectors.Keys == s.injectors.Keys
    ensures r.1.Ok? ==> !r.0.loopAgain
    ensures r.1.Ok? ==>
      r.0.hooks == if tid in s.injectors && r.0.injectors[tid] == [] then Disable(s).hooks else s.hooks
    ensures r.1.Ok? ==>
      r.0.trace == PollInjectors(s, tid, asid).0.trace +
        (if s.loopAgain then [SetPc(s.hooks.value.pc), ExitLoop] else [])
    ensures r.1.Ok? ==>
      r.0 == PollInjectors(s, tid, asid).0.(hooks := r.0.hooks, loopAgain := false, trace := r.0.trace)
    ensures r.1.Panic? <==> PollInjectors(s, tid, asid).1.Panic?
    ensures r.1.Panic? ==> r == (PollInjectors(s, tid, asid).0, Panic(PollInjectors(s, tid, asid).1.fault))
  {
    var (s1, done) := PollInjectors(s, tid, asid);
    match done
    case Panic(f) => (s1, Panic(f))
    case Ok(d) =>
      var s2 := if d then Disable(s1) else s1;
      if s2.loopAgain then (Replay(s2).(loopAgain := false), Ok(()))
      else (s2, Ok(()))
  }

  /** `run_injector_next_syscall`: register a one-shot sys_enter callback holding `user`. */
  function RunInjectorNextSyscall(s: State, user: Script): (r: (State, nat))
    ensures r.1 == |s.nextHooks| && r.0.nextHooks == s.nextHooks + [NextSyscallHook(Some(user), true)]
    ensures r.0 == s.(nextHooks := r.0.nextHooks)
  {
    (s.(nextHooks := s.nextHooks + [NextSyscallHook(Some(user), true)]), |s.nextHooks|)
  }

  /**
    The body of the one-shot callback number `h`: take its injector (panicking
    when it was already taken), run it with the pc of this syscall, disable itself.
   */
  function NextSyscall(s: State, h: nat, tid: ThreadId, asid: Word, pc: Word): (r: (State, Outcome<()>))
    requires h < |s.nextHooks|
    ensures |r.0.nextHooks| == |s.nextHooks|
    ensures s.nextHooks[h].pending.None? ==> r == (s, Panic(InjectorTakenTwice))
    ensures s.nextHooks[h].pending.Some? ==>
      r.0.nextHooks[h].pending.None? && r.0.injectors.Keys == s.injectors.Keys + {tid}
    ensures r.1.Ok? ==> r.0.nextHooks == s.nextHooks[h := NextSyscallHook(None, false)]
    ensures s.nextHooks[h].pending.Some? ==>
      var taken := s.(nextHooks := s.nextHooks[h := s.nextHooks[h].(pending := None)]);
      var t := RunInjector(taken, tid, asid, pc, s.nextHooks[h].pending.value);
      r.1 == t.1 && r.0 == t.0.(nextHooks := r.0.nextHooks) && (r.1.Panic? ==> r.0 == t.0)
  {
    match s.nextHooks[h].pending
    case None => (s, Panic(InjectorTakenTwice))
    case Some(user) =>
      var s1 := s.(nextHooks := s.nextHooks[h := s.nextHooks[h].(pending := None)]);
      var (s2, o) := RunInjector(s1, tid, asid, pc, user);
      if o.Panic? then (s2, o)
      else (s2.(nextHooks := s2.nextHooks[h := s2.nextHooks[h].(enabled := false)]), Ok(()))
  }
}
