/**
  What the scheduler promises, proved about the functions of `InjectionModel`.
 */
module InjectionProperties {
  import opened InjectionTypes
  import opened InjectionModel

  /**
    `q'` is what polling leaves of queue `q` while `asid` is live: a prefix of
    `q`, all of the live asid, is gone, and of the rest only the new head may
    have advanced (and only when its asid is the live one); the entries behind
    it are untouched. That only finished heads are popped and a waiting head
    stays is stated by `ReadyHeadPopped` and `WaitingHeadStays`.
   */
  ghost predicate PolledInOrder(q: seq<Entry>, q': seq<Entry>, asid: Word) {
    && |q'| <= |q|
    && (forall i :: 0 <= i < |q| - |q'| ==> q[i].asid == asid)
    && (q' != [] ==>
          var k := |q| - |q'|;
          && q'[0].asid == q[k].asid
          && q'[1..] == q[k + 1..]
          && (q'[0] != q[k] ==> q[k].asid == asid))
  }

  /** Popping a finished head of the live asid keeps `PolledInOrder`. */
  lemma PolledInOrderPop(q: seq<Entry>, q': seq<Entry>, asid: Word)
    requires q != [] && q[0].asid == asid
    requires PolledInOrder(q[1..], q', asid)
    ensures PolledInOrder(q, q', asid)
  {
  }

  /** Advancing the head of the live asid in place keeps `PolledInOrder`. */
  lemma PolledInOrderAdvance(q: seq<Entry>, h: Entry, q': seq<Entry>, asid: Word)
    requires q != [] && q[0].asid == asid && h.asid == asid
    requires PolledInOrder([h] + q[1..], q', asid)
    ensures PolledInOrder(q, q', asid)
  {
    var q2 := [h] + q[1..];
    assert forall i :: 0 < i < |q| ==> q2[i] == q[i];
    assert q2[1..] == q[1..];
    if q' != [] {
      var k := |q| - |q'|;
      assert q2[k + 1..] == q[k + 1..];
    }
  }

  /**
    The loop of `poll_injectors` keeps FIFO order, advances only heads of the
    live asid, and stops with `false` only at a head that is in another asid or
    waits for a syscall; after a panic the thread still has a queued head.
   */
  lemma {:induction false} PollQueueFifo(s: State, tid: ThreadId, asid: Word)
    requires tid in s.injectors
    ensures var r := PollQueue(s, tid, asid);
      var q, q' := s.injectors[tid], r.0.injectors[tid];
      && PolledInOrder(q, q', asid)
      && (r.1 == Ok(false) ==>
            q' != [] && r.0.injectorAsid == q'[0].asid && (q'[0].asid != asid || r.0.waiting))
      && (r.1.Panic? ==> q' != [])
      && (r.1 == Ok(false) && !s.waiting && q'[0].asid == asid ==>
            && r.0.waiting && r.0.retCell.None?
            && q'[0].injector.steps != [] && q'[0].injector.steps[0] == AwaitReturn)
    decreases |s.injectors[tid]|, HeadWeight(s.injectors[tid])
  {
    var q := s.injectors[tid];
    if q == [] || q[0].asid != asid {
      return;
    }
    var s1 := s.(injectorAsid := q[0].asid);
    var p := PollOnce(s1, tid, q[0].injector);
    match p.poll
    case Panic(_) =>
    case Ok(Ready) =>
      var s2 := p.s.(injectors := p.s.injectors[tid := q[1..]]);
      PollQueueFifo(s2, tid, asid);
      PolledInOrderPop(q, PollQueue(s2, tid, asid).0.injectors[tid], asid);
    case Ok(Pending) =>
      var h := q[0].(injector := p.inj);
      var s2 := p.s.(injectors := p.s.injectors[tid := [h] + q[1..]]);
      if p.s.waiting {
        PolledInOrderAdvance(q, h, [h] + q[1..], asid);
      } else {
        PollQueueFifo(s2, tid, asid);
        PolledInOrderAdvance(q, h, PollQueue(s2, tid, asid).0.injectors[tid], asid);
      }
  }

  /** A head of the live asid that awaits a result nobody stored stays at the front, and the loop answers `false`. */
  lemma WaitingHeadStays(s: State, tid: ThreadId, asid: Word)
    requires tid in s.injectors && s.injectors[tid] != [] && s.injectors[tid][0].asid == asid
    requires s.injectors[tid][0].injector.steps != [] && s.injectors[tid][0].injector.steps[0] == AwaitReturn
    requires s.retCell.None?
    ensures PollQueue(s, tid, asid) == (s.(injectorAsid := asid, waiting := true), Ok(false))
  {
    var q := s.injectors[tid];
    assert [q[0]] + q[1..] == q;
    assert s.injectors[tid := q] == s.injectors;
  }

  /**
    A finished head of the live asid is popped, and the loop goes on with the
    rest of the queue: one unfolding of `PollQueue`, stated once so that the
    proofs that follow the loop step by step can use it.
   */
  lemma ReadyHeadPopped(s: State, tid: ThreadId, asid: Word)
    requires tid in s.injectors && s.injectors[tid] != [] && s.injectors[tid][0].asid == asid
    requires s.injectors[tid][0].injector.steps == []
    ensures PollQueue(s, tid, asid) ==
      PollQueue(s.(injectorAsid := asid, injectors := s.injectors[tid := s.injectors[tid][1..]]), tid, asid)
  {
  }

  /**
    A head of the live asid that makes progress without waiting is polled again
    in place: one unfolding of `PollQueue`, stated once so that the proofs that
    follow the loop step by step can use it.
   */
  lemma PendingHeadContinues(s: State, tid: ThreadId, asid: Word)
    requires tid in s.injectors && s.injectors[tid] != [] && s.injectors[tid][0].asid == asid
    ensures var q := s.injectors[tid];
      var p := PollOnce(s.(injectorAsid := asid), tid, q[0].injector);
      p.poll == Ok(Pending) && !p.s.waiting ==>
        PollQueue(s, tid, asid) ==
        PollQueue(p.s.(injectors := p.s.injectors[tid := [q[0].(injector := p.inj)] + q[1..]]), tid, asid)
  {
  }

  /**
    The poll loop panics only at a `fork` without a backup: the fault is
    `ForkOutsideInjector`, and the thread's head, in the live asid, is that fork.
   */
  lemma {:induction false} PollQueuePanicIsFork(s: State, tid: ThreadId, asid: Word)
    requires tid in s.injectors
    ensures var r := PollQueue(s, tid, asid);
      r.1.Panic? ==>
        && r.1.fault == ForkOutsideInjector && tid !in r.0.backups
        && r.0.injectors[tid] != [] && r.0.injectors[tid][0].asid == asid
        && r.0.injectors[tid][0].injector.steps != [] && r.0.injectors[tid][0].injector.steps[0].Fork?
    decreases |s.injectors[tid]|, HeadWeight(s.injectors[tid])
  {
    var q := s.injectors[tid];
    if q == [] || q[0].asid != asid {
      return;
    }
    var s1 := s.(injectorAsid := q[0].asid);
    var p := PollOnce(s1, tid, q[0].injector);
    match p.poll
    case Panic(_) =>
    case Ok(Ready) =>
      PollQueuePanicIsFork(p.s.(injectors := p.s.injectors[tid := q[1..]]), tid, asid);
    case Ok(Pending) =>
      if !p.s.waiting {
        PollQueuePanicIsFork(p.s.(injectors := p.s.injectors[tid := [q[0].(injector := p.inj)] + q[1..]]), tid, asid);
      }
  }

  /**
    The whole `poll_injectors`: with no queue for the thread it answers `false`
    and changes no queue; otherwise the loop's promises hold of the thread's
    queue, the other threads' queues are untouched, and `true` means the queue
    is now empty.
   */
  lemma PollInjectorsFifo(s: State, tid: ThreadId, asid: Word)
    ensures var r := PollInjectors(s, tid, asid);
      && (tid !in s.injectors ==> r.1 == Ok(false) && r.0.injectors == s.injectors)
      && (tid in s.injectors ==>
            && PolledInOrder(s.injectors[tid], r.0.injectors[tid], asid)
            && (r.1 == Ok(true) <==> r.0.injectors[tid] == [])
            && (r.1 == Ok(false) ==> r.0.injectors[tid] != [])
            && (r.1 == Ok(false) && r.0.injectors[tid][0].asid == asid ==>
                  && r.0.waiting && r.0.retCell.None?
                  && r.0.injectors[tid][0].injector.steps != []
                  && r.0.injectors[tid][0].injector.steps[0] == AwaitReturn)
            && (r.1.Panic? ==>
                  && r.1.fault == ForkOutsideInjector && tid !in r.0.backups
                  && r.0.injectors[tid] != [] && r.0.injectors[tid][0].asid == asid
                  && r.0.injectors[tid][0].injector.steps != []
                  && r.0.injectors[tid][0].injector.steps[0].Fork?))
      && (Queue(s, tid) != [] && Queue(s, tid)[0].asid == asid ==>
            var h := Queue(s, tid)[0].injector;
            && (h.steps != [] && h.steps[0] == AwaitReturn && s.retCell.None? ==>
                  r == (s.(injectorAsid := asid, waiting := true), Ok(false)))
            && (h.steps == [] ==>
                  r == PollQueue(s.(waiting := false, injectorAsid := asid,
                                    injectors := s.injectors[tid := Queue(s, tid)[1..]]), tid, asid)))
  {
    if tid in s.injectors {
      var s0 := s.(waiting := false);
      PollQueueFifo(s0, tid, asid);
      PollQueuePanicIsFork(s0, tid, asid);
      if s.injectors[tid] != [] && s.injectors[tid][0].asid == asid {
        var h := s.injectors[tid][0].injector;
        if h.steps != [] && h.steps[0] == AwaitReturn && s.retCell.None? {
          WaitingHeadStays(s0, tid, asid);
        } else if h.steps == [] {
          ReadyHeadPopped(s0, tid, asid);
        }
      }
    }
  }

  /**
    The first `run_injector` of the process starts the new computation at once:
    the thread's queue is what polling leaves of the one wrapped entry, and when
    the computation is not finished it waits for the result of a syscall.
   */
  lemma RunInjectorFirstPolls(s: State, tid: ThreadId, asid: Word, pc: Word, user: Script)
    requires s.injectors == map[]
    ensures var r := RunInjector(s, tid, asid, pc, user);
      var q' := Queue(r.0, tid);
      && tid in r.0.injectors
      && PolledInOrder([Entry(asid, Wrap(user))], q', asid)
      && (r.1.Ok? && q' != [] ==>
            r.0.waiting && q'[0].injector.steps != [] && q'[0].injector.steps[0] == AwaitReturn)
  {
    var s2 := s.(injectors := map[tid := [Entry(asid, Wrap(user))]], hooks := Some(Hooks(pc, true, true)));
    PollInjectorsFifo(s2, tid, asid);
    var p := PollInjectors(s2, tid, asid);
    var r := RunInjector(s, tid, asid, pc, user);
    assert r.0.injectors == p.0.injectors && r.0.waiting == p.0.waiting;
    if r.1.Ok? && Queue(r.0, tid) != [] {
      assert p.1.Ok? && tid in p.0.injectors && p.0.injectors[tid] != [];
      assert p.1 != Ok(true);
      assert !p.1.value;
      assert p.0.injectors[tid][0].asid == asid;
    }
  }

  /**
    What `fork` puts into the handoff slot is what the next take returns: the
    parent's backup and the child's code, whatever the slot held before, and the
    slot is empty again afterwards.
   */
  lemma ForkThenTake(s: State, tid: ThreadId, child: Script)
    requires tid in s.backups
    ensures var (s1, o) := ForkPrologue(s, tid, child);
      && o == Ok(())
      && TakeChild(s1) == (s.(child := None), Ok(ChildInjector(s.backups[tid], child)))
  {
  }

  /**
    The handoff slot is take-once: after a fork-child return consumed it, another
    fork-child return before the next `fork` panics instead of enqueueing a child.
   */
  lemma ChildSlotTakenOnce(s: State, tid: ThreadId, asid: Word, tid': ThreadId, asid': Word)
    requires s.hooks.Some? && IsForkChild(s, 0)
    requires SysReturn(s, tid, asid, 0).1.Ok?
    ensures var t := SysReturn(s, tid, asid, 0).0;
      t.hooks.Some? && SysReturn(t, tid', asid', 0) == (t, Panic(NoChildInjector))
  {
  }
}

/**
  The execution engine as the environment of the scheduler: it calls the entry
  points and fires the callbacks that are registered and enabled, in any order.
 */
module InjectionEngine {
  import opened InjectionTypes
  import opened InjectionModel

  /** One thing the engine or the analysis code does. */
  datatype Call =
    | RunInjectorCall(tid: ThreadId, asid: Word, pc: Word, user: Script)
    | SysEnterEvent(tid: ThreadId, asid: Word)
    | SysReturnEvent(tid: ThreadId, asid: Word, ret: Word)
    | RunInjectorNextSyscallCall(user: Script)
    | NextSyscallEvent(h: nat, tid: ThreadId, asid: Word, pc: Word)

  /** The effect of one call; a callback that is not registered or is disabled is not fired. */
  function Apply(s: State, c: Call): (State, Outcome<()>) {
    match c
    case RunInjectorCall(tid, asid, pc, user) => RunInjector(s, tid, asid, pc, user)
    case SysEnterEvent(tid, asid) =>
      if s.hooks.Some? && s.hooks.value.enterOn then SysEnter(s, tid, asid) else (s, Ok(()))
    case SysReturnEvent(tid, asid, ret) =>
      if s.hooks.Some? && s.hooks.value.returnOn then SysReturn(s, tid, asid, ret) else (s, Ok(()))
    case RunInjectorNextSyscallCall(user) => (RunInjectorNextSyscall(s, user).0, Ok(()))
    case NextSyscallEvent(h, tid, asid, pc) =>
      if h < |s.nextHooks| && s.nextHooks[h].enabled then NextSyscall(s, h, tid, asid, pc) else (s, Ok(()))
  }

  /** A run of calls; a panic aborts the process, so nothing after it happens. */
  function Run(s: State, calls: seq<Call>): (State, Outcome<()>)
    decreases |calls|
  {
    if calls == [] then (s, Ok(()))
    else
      var (s1, o) := Apply(s, calls[0]);
      if o.Panic? then (s1, o) else Run(s1, calls[1..])
  }
}

/** Invariants of every run of the scheduler from process start. */
module InjectionLifecycle {
  import opened InjectionTypes
  import opened InjectionModel
  import opened InjectionEngine

  /**
    The callbacks are registered exactly when `INJECTORS` holds an entry, and
    they are enabled and disabled together.
   */
  ghost predicate Inv(s: State) {
    && (s.hooks.None? <==> s.injectors == map[])
    && (s.hooks.Some? ==> s.hooks.value.enterOn == s.hooks.value.returnOn)
  }

  /**
    From `s` to `t` no thread lost its `INJECTORS` entry, and registered
    callbacks kept their pc and were not re-enabled once disabled.
   */
  ghost predicate Grows(s: State, t: State) {
    && s.injectors.Keys <= t.injectors.Keys
    && (s.hooks.Some? ==>
          && t.hooks.Some?
          && t.hooks.value.pc == s.hooks.value.pc
          && (!s.hooks.value.enterOn ==> !t.hooks.value.enterOn))
  }

  lemma InitialInv(cpu: Regs)
    ensures Inv(Initial(cpu))
  {
  }

  /** Every call keeps the invariant, keeps every `INJECTORS` entry, installs the callbacks at most once. */
  lemma ApplyGrows(s: State, c: Call)
    requires Inv(s)
    ensures Inv(Apply(s, c).0) && Grows(s, Apply(s, c).0)
  {
  }

  /** The same for every run of calls. */
  lemma {:induction false} RunGrows(s: State, calls: seq<Call>)
    requires Inv(s)
    ensures Inv(Run(s, calls).0) && Grows(s, Run(s, calls).0)
    decreases |calls|
  {
    if calls != [] {
      ApplyGrows(s, calls[0]);
      var (s1, o) := Apply(s, calls[0]);
      if o.Ok? {
        RunGrows(s1, calls[1..]);
      }
    }
  }

  /**
    Since `INJECTORS` entries are never removed, `is_first` holds only once:
    after the callbacks have been disabled no call enables them again and no
    queued computation is ever polled; queues only grow at the back.
   */
  lemma {:induction false} DisabledForever(s: State, calls: seq<Call>)
    requires Inv(s) && s.hooks.Some? && !s.hooks.value.enterOn
    ensures var t := Run(s, calls).0;
      && t.hooks.Some? && !t.hooks.value.enterOn && !t.hooks.value.returnOn
      && forall tid :: tid in s.injectors ==> tid in t.injectors && s.injectors[tid] <= t.injectors[tid]
    decreases |calls|
  {
    if calls != [] {
      ApplyGrows(s, calls[0]);
      DisabledStep(s, calls[0]);
      var (s1, o) := Apply(s, calls[0]);
      if o.Ok? {
        DisabledForever(s1, calls[1..]);
      }
    }
  }

  /** One call while the callbacks are disabled polls nothing: every queue keeps its entries. */
  lemma DisabledStep(s: State, c: Call)
    requires Inv(s) && s.hooks.Some? && !s.hooks.value.enterOn
    ensures var t := Apply(s, c).0;
      forall tid :: tid in s.injectors ==> tid in t.injectors && s.injectors[tid] <= t.injectors[tid]
  {
  }

  /**
    Finishing is decided per thread: a sys_enter on a thread whose entry exists
    with an empty queue disables both callbacks, whatever other threads still
    have queued, and leaves every queue as it was.
   */
  lemma EmptyThreadDisables(s: State, tid: ThreadId, asid: Word)
    requires Inv(s) && s.hooks.Some? && s.hooks.value.enterOn
    requires tid in s.injectors && s.injectors[tid] == []
    ensures var r := Apply(s, SysEnterEvent(tid, asid));
      && r.1 == Ok(())
      && r.0.hooks == Some(s.hooks.value.(enterOn := false, returnOn := false))
      && r.0.injectors == s.injectors
  {
  }

  /**
    So work another thread has queued can be stranded: after the sys_enter of a
    finished thread the callbacks stay off over any later events, and none of
    the other thread's entries is ever popped.
   */
  lemma OtherThreadStranded(s: State, tid: ThreadId, other: ThreadId, asid: Word, calls: seq<Call>)
    requires Inv(s) && s.hooks.Some? && s.hooks.value.enterOn
    requires tid in s.injectors && s.injectors[tid] == [] && other in s.injectors && s.injectors[other] != []
    ensures var t := Run(Apply(s, SysEnterEvent(tid, asid)).0, calls).0;
      && t.hooks.Some? && !t.hooks.value.enterOn
      && other in t.injectors && s.injectors[other] <= t.injectors[other]
  {
    EmptyThreadDisables(s, tid, asid);
    var s1 := Apply(s, SysEnterEvent(tid, asid)).0;
    ApplyGrows(s, SysEnterEvent(tid, asid));
    DisabledForever(s1, calls);
  }
}

/** A whole injection, from `run_injector` to the callbacks being disabled. */
module InjectionScenario {
  import opened InjectionTypes
  import opened InjectionModel
  import opened InjectionEngine

  /** Running `[c] + rest` is running `rest` from where `c` left off, when `c` does not panic. */
  lemma RunStep(s: State, c: Call, rest: seq<Call>, t: State)
    requires Apply(s, c) == (t, Ok(()))
    ensures Run(s, [c] + rest) == Run(t, rest)
  {
    assert ([c] + rest)[1..] == rest;
  }

  /** The same step, stated as the outcome of the whole run once the outcome of `rest` is known. */
  lemma Chain(s: State, c: Call, rest: seq<Call>, t: State, u: (State, Outcome<()>))
    requires Apply(s, c) == (t, Ok(()))
    requires Run(t, rest) == u
    ensures Run(s, [c] + rest) == u
  {
    RunStep(s, c, rest, t);
  }

  /** One pass of the poll loop over a thread whose queue is the single entry `e`, of the live asid. */
  lemma PollSingle(s: State, tid: ThreadId, e: Entry, asid: Word)
    requires s.injectors == map[tid := [e]] && e.asid == asid
    ensures var p := PollOnce(s.(injectorAsid := asid), tid, e.injector);
      p.poll == Ok(Pending) && !p.s.waiting ==>
        PollQueue(s, tid, asid) == PollQueue(p.s.(injectors := map[tid := [Entry(asid, p.inj)]]), tid, asid)
  {
    var p := PollOnce(s.(injectorAsid := asid), tid, e.injector);
    var q := s.injectors[tid];
    assert [q[0].(injector := p.inj)] + q[1..] == [Entry(asid, p.inj)];
    assert p.s.injectors[tid := [Entry(asid, p.inj)]] == map[tid := [Entry(asid, p.inj)]];
  }

  /** A single entry about to back up the registers. */
  lemma SaveSingle(s: State, tid: ThreadId, asid: Word, inj: Injector)
    requires s.injectors == map[tid := [Entry(asid, inj)]] && !s.waiting
    requires inj.steps != [] && inj.steps[0] == SaveRegs
    ensures PollQueue(s, tid, asid) ==
      PollQueue(s.(injectorAsid := asid, backups := s.backups[tid := s.cpu],
                   injectors := map[tid := [Entry(asid, Injector(inj.steps[1..], s.cpu))]]), tid, asid)
  {
    PollSingle(s, tid, Entry(asid, inj), asid);
  }

  /** A single entry about to issue a syscall. */
  lemma IssueSingle(s: State, tid: ThreadId, asid: Word, inj: Injector)
    requires s.injectors == map[tid := [Entry(asid, inj)]] && !s.waiting
    requires inj.steps != [] && inj.steps[0].Syscall?
    ensures var n := inj.steps[0].num;
      PollQueue(s, tid, asid) ==
      PollQueue(s.(injectorAsid := asid, lastSyscall := n, retCell := None, cpu := s.cpu[SYSCALL_RET := n],
                   trace := s.trace + [Issue(n)],
                   injectors := map[tid := [Entry(asid, inj.(steps := [AwaitReturn] + inj.steps[1..]))]]), tid, asid)
  {
    PollSingle(s, tid, Entry(asid, inj), asid);
  }

  /** A single entry whose awaited result has arrived. */
  lemma DeliverSingle(s: State, tid: ThreadId, asid: Word, inj: Injector)
    requires s.injectors == map[tid := [Entry(asid, inj)]] && !s.waiting
    requires inj.steps != [] && inj.steps[0] == AwaitReturn && s.retCell.Some?
    ensures PollQueue(s, tid, asid) ==
      PollQueue(s.(injectorAsid := asid, retCell := None, trace := s.trace + [Delivered(s.retCell.value)],
                   injectors := map[tid := [Entry(asid, inj.(steps := inj.steps[1..]))]]), tid, asid)
  {
    PollSingle(s, tid, Entry(asid, inj), asid);
  }

  /** A single entry about to restore its snapshot. */
  lemma RestoreSingle(s: State, tid: ThreadId, asid: Word, inj: Injector)
    requires s.injectors == map[tid := [Entry(asid, inj)]] && !s.waiting
    requires inj.steps != [] && inj.steps[0] == RestoreRegs
    ensures PollQueue(s, tid, asid) ==
      PollQueue(s.(injectorAsid := asid, cpu := s.cpu + inj.saved,
                   injectors := map[tid := [Entry(asid, inj.(steps := inj.steps[1..]))]]), tid, asid)
  {
    PollSingle(s, tid, Entry(asid, inj), asid);
  }

  /** A single entry about to drop the backup of its thread. */
  lemma ClearSingle(s: State, tid: ThreadId, asid: Word, inj: Injector)
    requires s.injectors == map[tid := [Entry(asid, inj)]] && !s.waiting
    requires inj.steps != [] && inj.steps[0] == ClearBackup
    ensures PollQueue(s, tid, asid) ==
      PollQueue(s.(injectorAsid := asid, backups := s.backups - {tid},
                   injectors := map[tid := [Entry(asid, inj.(steps := inj.steps[1..]))]]), tid, asid)
  {
    PollSingle(s, tid, Entry(asid, inj), asid);
  }

  /** The poll loop stops at a single entry that waits for a result nobody delivered yet. */
  lemma WaitSingle(s: State, tid: ThreadId, e: Entry, asid: Word)
    requires s.injectors == map[tid := [e]] && e.asid == asid
    requires e.injector.steps != [] && e.injector.steps[0] == AwaitReturn && s.retCell == None
    ensures PollQueue(s, tid, asid) == (s.(injectorAsid := asid, waiting := true), Ok(false))
  {
    var p := PollOnce(s.(injectorAsid := asid), tid, e.injector);
    var q := s.injectors[tid];
    assert [q[0].(injector := p.inj)] + q[1..] == [e];
    assert p.s.injectors[tid := [e]] == s.injectors;
  }

  /** The poll loop drops a single finished entry and reports the queue empty. */
  lemma ReadySingle(s: State, tid: ThreadId, e: Entry, asid: Word)
    requires s.injectors == map[tid := [e]] && e.asid == asid && e.injector.steps == []
    ensures PollQueue(s, tid, asid) == (s.(injectorAsid := asid, injectors := map[tid := []]), Ok(true))
  {
    var q := s.injectors[tid];
    assert q[1..] == [];
    assert s.injectors[tid := []] == map[tid := []];
  }

  /** After `run_injector`: backed up, `x` issued, waiting for its result. */
  ghost function Issued(cpu: Regs, tid: ThreadId, asid: Word, pc: Word, x: Word, y: Word): State {
    State(map[tid := [Entry(asid, Injector([AwaitReturn, Syscall(y), RestoreRegs, ClearBackup], cpu))]],
          map[tid := cpu], None, true, asid, false, x, None, cpu[SYSCALL_RET := x],
          [Issue(x)], Some(Hooks(pc, true, true)), [])
  }

  /** After the return of `x` with 5: the result is stored and the syscall is replayed. */
  ghost function Returned(cpu: Regs, tid: ThreadId, asid: Word, pc: Word, x: Word, y: Word): State {
    var s := Issued(cpu, tid, asid, pc, x, y);
    s.(loopAgain := true, retCell := Some(5), trace := [Issue(x), SetPc(pc), ExitLoop])
  }

  /** After the next sys_enter: 5 delivered, `y` issued and waiting. */
  ghost function IssuedAgain(cpu: Regs, tid: ThreadId, asid: Word, pc: Word, x: Word, y: Word): State {
    var s := Returned(cpu, tid, asid, pc, x, y);
    s.(injectors := map[tid := [Entry(asid, Injector([AwaitReturn, RestoreRegs, ClearBackup], cpu))]],
       lastSyscall := y, retCell := None, cpu := cpu[SYSCALL_RET := y], loopAgain := false,
       trace := [Issue(x), SetPc(pc), ExitLoop, Delivered(5), Issue(y), SetPc(pc), ExitLoop])
  }

  /** After the return of `y` with 9. */
  ghost function ReturnedAgain(cpu: Regs, tid: ThreadId, asid: Word, pc: Word, x: Word, y: Word): State {
    var s := IssuedAgain(cpu, tid, asid, pc, x, y);
    s.(loopAgain := true, retCell := Some(9),
       trace := [Issue(x), SetPc(pc), ExitLoop, Delivered(5), Issue(y), SetPc(pc), ExitLoop, SetPc(pc), ExitLoop])
  }

  /** After the last sys_enter: 9 delivered, registers restored, backup dropped, callbacks off. */
  ghost function Finished(cpu: Regs, tid: ThreadId, asid: Word, pc: Word, x: Word, y: Word): State {
    var s := ReturnedAgain(cpu, tid, asid, pc, x, y);
    s.(injectors := map[tid := []], backups := map[], waiting := false, loopAgain := false,
       retCell := None, cpu := cpu, hooks := Some(Hooks(pc, false, false)),
       trace := [Issue(x), SetPc(pc), ExitLoop, Delivered(5), Issue(y), SetPc(pc), ExitLoop,
                 SetPc(pc), ExitLoop, Delivered(9), SetPc(pc), ExitLoop])
  }

  /** The states the first poll passes through, as the single-entry steps below produce them. */
  lemma StartStates(cpu: Regs, tid: ThreadId, asid: Word, pc: Word, x: Word, y: Word)
    ensures var w := Wrap([Syscall(x), Syscall(y)]);
      var a := Initial(cpu).(injectors := map[tid := [Entry(asid, w)]], hooks := Some(Hooks(pc, true, true)));
      var i1 := Injector([Syscall(x), Syscall(y), RestoreRegs, ClearBackup], cpu);
      var i2 := Injector([AwaitReturn, Syscall(y), RestoreRegs, ClearBackup], cpu);
      var b := a.(injectorAsid := asid, backups := a.backups[tid := a.cpu], injectors := map[tid := [Entry(asid, i1)]]);
      var c := b.(injectorAsid := asid, lastSyscall := x, retCell := None, cpu := b.cpu[SYSCALL_RET := x],
                  trace := b.trace + [Issue(x)], injectors := map[tid := [Entry(asid, i2)]]);
      && w.steps != [] && w.steps[0] == SaveRegs && Injector(w.steps[1..], a.cpu) == i1
      && i1.steps[0] == Syscall(x) && i1.(steps := [AwaitReturn] + i1.steps[1..]) == i2
      && c.(injectorAsid := asid, waiting := true) == Issued(cpu, tid, asid, pc, x, y)
  {
    var w := Wrap([Syscall(x), Syscall(y)]);
    assert w.steps == [SaveRegs, Syscall(x), Syscall(y), RestoreRegs, ClearBackup];
    assert map[][tid := cpu] == map[tid := cpu];
    assert [] + [Issue(x)] == [Issue(x)];
  }

  /** The poll part of `run_injector`: registers backed up, `x` issued, waiting. */
  lemma StartPoll(cpu: Regs, tid: ThreadId, asid: Word, pc: Word, x: Word, y: Word)
    ensures var a := Initial(cpu).(injectors := map[tid := [Entry(asid, Wrap([Syscall(x), Syscall(y)]))]],
                                   hooks := Some(Hooks(pc, true, true)));
      PollInjectors(a, tid, asid) == (Issued(cpu, tid, asid, pc, x, y), Ok(false))
  {
    var w := Wrap([Syscall(x), Syscall(y)]);
    var a := Initial(cpu).(injectors := map[tid := [Entry(asid, w)]], hooks := Some(Hooks(pc, true, true)));
    var i1 := Injector([Syscall(x), Syscall(y), RestoreRegs, ClearBackup], cpu);
    var i2 := Injector([AwaitReturn, Syscall(y), RestoreRegs, ClearBackup], cpu);
    var b := a.(injectorAsid := asid, backups := a.backups[tid := a.cpu], injectors := map[tid := [Entry(asid, i1)]]);
    var c := b.(injectorAsid := asid, lastSyscall := x, retCell := None, cpu := b.cpu[SYSCALL_RET := x],
                trace := b.trace + [Issue(x)], injectors := map[tid := [Entry(asid, i2)]]);
    StartStates(cpu, tid, asid, pc, x, y);
    SaveSingle(a, tid, asid, w);
    IssueSingle(b, tid, asid, i1);
    WaitSingle(c, tid, Entry(asid, i2), asid);
  }

  lemma StepRun(cpu: Regs, tid: ThreadId, asid: Word, pc: Word, x: Word, y: Word)
    ensures Apply(Initial(cpu), RunInjectorCall(tid, asid, pc, [Syscall(x), Syscall(y)]))
         == (Issued(cpu, tid, asid, pc, x, y), Ok(()))
  {
    StartPoll(cpu, tid, asid, pc, x, y);
  }

  lemma StepReturn(cpu: Regs, tid: ThreadId, asid: Word, pc: Word, x: Word, y: Word)
    ensures Apply(Issued(cpu, tid, asid, pc, x, y), SysReturnEvent(tid, asid, 5))
         == (Returned(cpu, tid, asid, pc, x, y), Ok(()))
  {
    assert [Issue(x)] + [SetPc(pc), ExitLoop] == [Issue(x), SetPc(pc), ExitLoop];
  }

  /** The poll part of the first sys_enter after a return: 5 delivered, `y` issued. */
  lemma EnterPoll(cpu: Regs, tid: ThreadId, asid: Word, pc: Word, x: Word, y: Word)
    ensures var s2 := Returned(cpu, tid, asid, pc, x, y);
      PollInjectors(s2, tid, asid) ==
        (s2.(lastSyscall := y, retCell := None, cpu := cpu[SYSCALL_RET := y],
             trace := s2.trace + [Delivered(5)] + [Issue(y)],
             injectors := IssuedAgain(cpu, tid, asid, pc, x, y).injectors), Ok(false))
  {
    var s2 := Returned(cpu, tid, asid, pc, x, y);
    var a := s2.(waiting := false);
    var i0 := a.injectors[tid][0].injector;
    var i1 := i0.(steps := i0.steps[1..]);
    var b := a.(retCell := None, trace := a.trace + [Delivered(5)], injectors := map[tid := [Entry(asid, i1)]]);
    DeliverSingle(a, tid, asid, i0);
    assert PollQueue(a, tid, asid) == PollQueue(b, tid, asid);
    assert i1.steps == [Syscall(y), RestoreRegs, ClearBackup];
    assert cpu[SYSCALL_RET := x][SYSCALL_RET := y] == cpu[SYSCALL_RET := y];
    var i2 := i1.(steps := [AwaitReturn] + i1.steps[1..]);
    assert i2 == IssuedAgain(cpu, tid, asid, pc, x, y).injectors[tid][0].injector;
    var c := b.(lastSyscall := y, retCell := None, cpu := cpu[SYSCALL_RET := y], trace := b.trace + [Issue(y)],
                injectors := map[tid := [Entry(asid, i2)]]);
    IssueSingle(b, tid, asid, i1);
    assert PollQueue(b, tid, asid) == PollQueue(c, tid, asid);
    WaitSingle(c, tid, Entry(asid, i2), asid);
  }

  lemma StepEnter(cpu: Regs, tid: ThreadId, asid: Word, pc: Word, x: Word, y: Word)
    ensures Apply(Returned(cpu, tid, asid, pc, x, y), SysEnterEvent(tid, asid))
         == (IssuedAgain(cpu, tid, asid, pc, x, y), Ok(()))
  {
    var t := Returned(cpu, tid, asid, pc, x, y).trace;
    EnterPoll(cpu, tid, asid, pc, x, y);
    assert t + [Delivered(5)] + [Issue(y)] + [SetPc(pc), ExitLoop] == IssuedAgain(cpu, tid, asid, pc, x, y).trace;
  }

  lemma StepEnterIdle(cpu: Regs, tid: ThreadId, asid: Word, pc: Word, x: Word, y: Word)
    ensures Apply(IssuedAgain(cpu, tid, asid, pc, x, y), SysEnterEvent(tid, asid))
         == (IssuedAgain(cpu, tid, asid, pc, x, y), Ok(()))
  {
    var s3 := IssuedAgain(cpu, tid, asid, pc, x, y);
    WaitSingle(s3.(waiting := false), tid, s3.injectors[tid][0], asid);
  }

  lemma StepReturnAgain(cpu: Regs, tid: ThreadId, asid: Word, pc: Word, x: Word, y: Word)
    ensures Apply(IssuedAgain(cpu, tid, asid, pc, x, y), SysReturnEvent(tid, asid, 9))
         == (ReturnedAgain(cpu, tid, asid, pc, x, y), Ok(()))
  {
    var t := IssuedAgain(cpu, tid, asid, pc, x, y).trace;
    assert t + [SetPc(pc), ExitLoop] == ReturnedAgain(cpu, tid, asid, pc, x, y).trace;
  }

  /** The states the last poll passes through, as the single-entry steps below produce them. */
  lemma FinishStates(cpu: Regs, tid: ThreadId, asid: Word, pc: Word, x: Word, y: Word)
    requires SYSCALL_RET in cpu
    ensures var s5 := ReturnedAgain(cpu, tid, asid, pc, x, y);
      var a := s5.(waiting := false);
      var i0 := Injector([AwaitReturn, RestoreRegs, ClearBackup], cpu);
      var i1 := Injector([RestoreRegs, ClearBackup], cpu);
      var i2 := Injector([ClearBackup], cpu);
      var i3 := Injector([], cpu);
      var b := a.(injectorAsid := asid, retCell := None, trace := a.trace + [Delivered(a.retCell.value)],
                  injectors := map[tid := [Entry(asid, i1)]]);
      var c := b.(injectorAsid := asid, cpu := b.cpu + i1.saved, injectors := map[tid := [Entry(asid, i2)]]);
      var d := c.(injectorAsid := asid, backups := c.backups - {tid}, injectors := map[tid := [Entry(asid, i3)]]);
      && a.injectors == map[tid := [Entry(asid, i0)]] && a.retCell == Some(9)
      && i0.(steps := i0.steps[1..]) == i1 && i1.(steps := i1.steps[1..]) == i2 && i2.(steps := i2.steps[1..]) == i3
      && d.(injectorAsid := asid, injectors := map[tid := []]) ==
         s5.(waiting := false, retCell := None, trace := s5.trace + [Delivered(9)], cpu := cpu,
             backups := map[], injectors := map[tid := []])
  {
    assert cpu[SYSCALL_RET := y] + cpu == cpu;
    assert map[tid := cpu] - {tid} == map[];
  }

  /** The poll part of the last sys_enter: the whole wrapper tail runs to completion. */
  lemma FinishPoll(cpu: Regs, tid: ThreadId, asid: Word, pc: Word, x: Word, y: Word)
    requires SYSCALL_RET in cpu
    ensures var s5 := ReturnedAgain(cpu, tid, asid, pc, x, y);
      PollInjectors(s5, tid, asid) ==
        (s5.(waiting := false, retCell := None, trace := s5.trace + [Delivered(9)], cpu := cpu,
             backups := map[], injectors := map[tid := []]), Ok(true))
  {
    var s5 := ReturnedAgain(cpu, tid, asid, pc, x, y);
    var a := s5.(waiting := false);
    var i0 := Injector([AwaitReturn, RestoreRegs, ClearBackup], cpu);
    var i1 := Injector([RestoreRegs, ClearBackup], cpu);
    var i2 := Injector([ClearBackup], cpu);
    var i3 := Injector([], cpu);
    FinishStates(cpu, tid, asid, pc, x, y);
    var b := a.(injectorAsid := asid, retCell := None, trace := a.trace + [Delivered(a.retCell.value)],
                injectors := map[tid := [Entry(asid, i1)]]);
    var c := b.(injectorAsid := asid, cpu := b.cpu + i1.saved, injectors := map[tid := [Entry(asid, i2)]]);
    var d := c.(injectorAsid := asid, backups := c.backups - {tid}, injectors := map[tid := [Entry(asid, i3)]]);
    DeliverSingle(a, tid, asid, i0);
    RestoreSingle(b, tid, asid, i1);
    ClearSingle(c, tid, asid, i2);
    ReadySingle(d, tid, Entry(asid, i3), asid);
  }

  lemma StepFinish(cpu: Regs, tid: ThreadId, asid: Word, pc: Word, x: Word, y: Word)
    requires SYSCALL_RET in cpu
    ensures Apply(ReturnedAgain(cpu, tid, asid, pc, x, y), SysEnterEvent(tid, asid))
         == (Finished(cpu, tid, asid, pc, x, y), Ok(()))
  {
    var t := ReturnedAgain(cpu, tid, asid, pc, x, y).trace;
    FinishPoll(cpu, tid, asid, pc, x, y);
    assert t + [Delivered(9)] + [SetPc(pc), ExitLoop] == Finished(cpu, tid, asid, pc, x, y).trace;
  }

  /** The last sys_enter alone. */
  lemma RunFromReturnedAgain(cpu: Regs, tid: ThreadId, asid: Word, pc: Word, x: Word, y: Word)
    requires SYSCALL_RET in cpu
    ensures Run(ReturnedAgain(cpu, tid, asid, pc, x, y), [SysEnterEvent(tid, asid)])
         == (Finished(cpu, tid, asid, pc, x, y), Ok(()))
  {
    var f := Finished(cpu, tid, asid, pc, x, y);
    StepFinish(cpu, tid, asid, pc, x, y);
    Chain(ReturnedAgain(cpu, tid, asid, pc, x, y), SysEnterEvent(tid, asid), [], f, (f, Ok(())));
  }

  /** From the second syscall issued: a spurious sys_enter, the return of 9, the last sys_enter. */
  lemma RunFromIssuedAgain(cpu: Regs, tid: ThreadId, asid: Word, pc: Word, x: Word, y: Word)
    requires SYSCALL_RET in cpu
    ensures Run(IssuedAgain(cpu, tid, asid, pc, x, y),
                [SysEnterEvent(tid, asid), SysReturnEvent(tid, asid, 9), SysEnterEvent(tid, asid)])
         == (Finished(cpu, tid, asid, pc, x, y), Ok(()))
  {
    var e, r := SysEnterEvent(tid, asid), SysReturnEvent(tid, asid, 9);
    var s3, u := IssuedAgain(cpu, tid, asid, pc, x, y), (Finished(cpu, tid, asid, pc, x, y), Ok(()));
    RunFromReturnedAgain(cpu, tid, asid, pc, x, y);
    StepReturnAgain(cpu, tid, asid, pc, x, y);
    Chain(s3, r, [e], ReturnedAgain(cpu, tid, asid, pc, x, y), u);
    StepEnterIdle(cpu, tid, asid, pc, x, y);
    Chain(s3, e, [r, e], s3, u);
  }

  /** From the first result stored. */
  lemma RunFromReturned(cpu: Regs, tid: ThreadId, asid: Word, pc: Word, x: Word, y: Word)
    requires SYSCALL_RET in cpu
    ensures Run(Returned(cpu, tid, asid, pc, x, y),
                [SysEnterEvent(tid, asid), SysEnterEvent(tid, asid),
                 SysReturnEvent(tid, asid, 9), SysEnterEvent(tid, asid)])
         == (Finished(cpu, tid, asid, pc, x, y), Ok(()))
  {
    var e, r9 := SysEnterEvent(tid, asid), SysReturnEvent(tid, asid, 9);
    RunFromIssuedAgain(cpu, tid, asid, pc, x, y);
    StepEnter(cpu, tid, asid, pc, x, y);
    Chain(Returned(cpu, tid, asid, pc, x, y), e, [e, r9, e], IssuedAgain(cpu, tid, asid, pc, x, y),
          (Finished(cpu, tid, asid, pc, x, y), Ok(())));
  }

  /** From the first syscall issued. */
  lemma RunFromIssued(cpu: Regs, tid: ThreadId, asid: Word, pc: Word, x: Word, y: Word)
    requires SYSCALL_RET in cpu
    ensures Run(Issued(cpu, tid, asid, pc, x, y),
                [SysReturnEvent(tid, asid, 5), SysEnterEvent(tid, asid), SysEnterEvent(tid, asid),
                 SysReturnEvent(tid, asid, 9), SysEnterEvent(tid, asid)])
         == (Finished(cpu, tid, asid, pc, x, y), Ok(()))
  {
    var e, r5, r9 := SysEnterEvent(tid, asid), SysReturnEvent(tid, asid, 5), SysReturnEvent(tid, asid, 9);
    RunFromReturned(cpu, tid, asid, pc, x, y);
    StepReturn(cpu, tid, asid, pc, x, y);
    Chain(Issued(cpu, tid, asid, pc, x, y), r5, [e, e, r9, e], Returned(cpu, tid, asid, pc, x, y),
          (Finished(cpu, tid, asid, pc, x, y), Ok(())));
  }

  /**
    A computation issuing syscall `x` then syscall `y`, where the engine returns
    5 and 9: the engine is asked for `x`, 5 is delivered, `y` is asked for, 9 is
    delivered, the registers are restored, the queue is empty, the callbacks are
    disabled, and no register backup is left.
   */
  lemma TwoSyscalls(cpu: Regs, tid: ThreadId, asid: Word, pc: Word, x: Word, y: Word)
    requires SYSCALL_RET in cpu
    ensures var calls := [RunInjectorCall(tid, asid, pc, [Syscall(x), Syscall(y)]),
                          SysReturnEvent(tid, asid, 5), SysEnterEvent(tid, asid),
                          SysEnterEvent(tid, asid), SysReturnEvent(tid, asid, 9),
                          SysEnterEvent(tid, asid)];
      var r := Run(Initial(cpu), calls);
      && r.1 == Ok(())
      && r.0.trace == [Issue(x), SetPc(pc), ExitLoop, Delivered(5), Issue(y), SetPc(pc), ExitLoop,
                      SetPc(pc), ExitLoop, Delivered(9), SetPc(pc), ExitLoop]
      && r.0.injectors == map[tid := []]
      && r.0.hooks == Some(Hooks(pc, false, false))
      && r.0.backups == map[]
      && r.0.cpu == cpu
  {
    TwoSyscallsRun(cpu, tid, asid, pc, x, y);
    FinishedState(cpu, tid, asid, pc, x, y);
  }

  /** The six calls of `TwoSyscalls` end in `Finished`. */
  lemma TwoSyscallsRun(cpu: Regs, tid: ThreadId, asid: Word, pc: Word, x: Word, y: Word)
    requires SYSCALL_RET in cpu
    ensures Run(Initial(cpu), [RunInjectorCall(tid, asid, pc, [Syscall(x), Syscall(y)]),
                               SysReturnEvent(tid, asid, 5), SysEnterEvent(tid, asid),
                               SysEnterEvent(tid, asid), SysReturnEvent(tid, asid, 9),
                               SysEnterEvent(tid, asid)])
         == (Finished(cpu, tid, asid, pc, x, y), Ok(()))
  {
    var c0 := RunInjectorCall(tid, asid, pc, [Syscall(x), Syscall(y)]);
    var rest := [SysReturnEvent(tid, asid, 5), SysEnterEvent(tid, asid), SysEnterEvent(tid, asid),
                 SysReturnEvent(tid, asid, 9), SysEnterEvent(tid, asid)];
    RunFromIssued(cpu, tid, asid, pc, x, y);
    StepRun(cpu, tid, asid, pc, x, y);
    Chain(Initial(cpu), c0, rest, Issued(cpu, tid, asid, pc, x, y), (Finished(cpu, tid, asid, pc, x, y), Ok(())));
  }

  /** The fields of `Finished`. */
  lemma FinishedState(cpu: Regs, tid: ThreadId, asid: Word, pc: Word, x: Word, y: Word)
    ensures var f := Finished(cpu, tid, asid, pc, x, y);
      && f.trace == [Issue(x), SetPc(pc), ExitLoop, Delivered(5), Issue(y), SetPc(pc), ExitLoop,
                    SetPc(pc), ExitLoop, Delivered(9), SetPc(pc), ExitLoop]
      && f.injectors == map[tid := []] && f.hooks == Some(Hooks(pc, false, false))
      && f.backups == map[] && f.cpu == cpu
  {
  }
}
