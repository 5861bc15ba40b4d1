/**
  The register backup of a thread follows its running wrapper: a thread has a
  backup exactly while the head of its queue is a `run_injector` wrapper that
  has saved the registers and not yet dropped them, and the backup is the
  snapshot that wrapper restores.
 */
module InjectionBackups {
  import opened InjectionTypes
  import opened InjectionModel

  /** A step of a computation that is running: a user step or an issued syscall. */
  predicate RunOp(op: Op) {
    UserOp(op) || op == AwaitReturn
  }

  /** What is left of a `run_injector` wrapper after its backup step: user steps, restore, drop. */
  ghost predicate WrapTail(t: Script) {
    && |t| >= 2 && t[|t| - 2] == RestoreRegs && t[|t| - 1] == ClearBackup
    && forall i :: 0 <= i < |t| - 2 ==> RunOp(t[i])
  }

  /** What is left of a fork child's wrapper: user steps, then restoring the parent's registers. */
  ghost predicate ChildTail(t: Script) {
    && |t| >= 1 && t[|t| - 1] == RestoreRegs
    && forall i :: 0 <= i < |t| - 1 ==> RunOp(t[i])
  }

  /** A `run_injector` wrapper that has not run yet. */
  ghost predicate WrapFresh(inj: Injector) {
    inj.steps != [] && inj.steps[0] == SaveRegs && WrapTail(inj.steps[1..])
  }

  /** A `run_injector` wrapper that has saved the registers and still holds the backup. */
  ghost predicate WrapStarted(inj: Injector) {
    WrapTail(inj.steps) || inj.steps == [ClearBackup]
  }

  /** What a queue entry behind the head looks like: a fresh wrapper or a fresh child. */
  ghost predicate Queued(inj: Injector) {
    WrapFresh(inj) || ChildTail(inj.steps)
  }

  /** What the head of a queue looks like: queued, running, or finished. */
  ghost predicate HeadShape(inj: Injector) {
    Queued(inj) || WrapStarted(inj) || inj.steps == []
  }

  /** Thread `tid` has a backup exactly when `inj` is a started wrapper, and it is `inj`'s snapshot. */
  ghost predicate BackupMatches(b: map<ThreadId, Regs>, tid: ThreadId, inj: Injector) {
    && (tid in b <==> WrapStarted(inj))
    && (tid in b ==> b[tid] == inj.saved)
  }

  /** The backup of `tid` agrees with its queue `q`, and every entry has the shape the scheduler gives it. */
  ghost predicate ThreadOk(q: seq<Entry>, b: map<ThreadId, Regs>, tid: ThreadId) {
    && (q == [] ==> tid !in b)
    && (q != [] ==> HeadShape(q[0].injector) && BackupMatches(b, tid, q[0].injector))
    && forall i :: 1 <= i < |q| ==> Queued(q[i].injector)
  }

  /** The backups of the threads other than `tid` are the same in `b` and `b'`. */
  ghost predicate OthersKept(b: map<ThreadId, Regs>, b': map<ThreadId, Regs>, tid: ThreadId) {
    forall t :: t != tid ==> (t in b <==> t in b') && (t in b ==> b[t] == b'[t])
  }

  /** The wrapper of `run_injector` around user code starts fresh. */
  lemma WrapIsFresh(user: Script)
    requires UserScript(user)
    ensures WrapFresh(Wrap(user))
  {
    var t := Wrap(user).steps[1..];
    assert t == user + [RestoreRegs, ClearBackup];
    forall i | 0 <= i < |t| - 2 ensures RunOp(t[i]) {
      assert t[i] == user[i];
    }
  }

  /** The wrapper of a fork child around user code. */
  lemma ChildWrapIsQueued(c: ChildInjector)
    requires UserScript(c.script)
    ensures ChildTail(ChildWrap(c).steps)
  {
    var t := ChildWrap(c).steps;
    forall i | 0 <= i < |t| - 1 ensures RunOp(t[i]) {
      assert t[i] == c.script[i];
    }
  }

  /**
    Polling a computation whose first step is a running step, `n` wrapper steps
    before its end, leaves `n` wrapper steps after running steps, keeps the
    snapshot and every backup, and hands only user code to the fork slot.
   */
  lemma PollRunning(s: State, tid: ThreadId, inj: Injector, n: nat)
    requires |inj.steps| > n && forall i :: 0 <= i < |inj.steps| - n ==> RunOp(inj.steps[i])
    ensures var p := PollOnce(s, tid, inj);
      && p.s.backups == s.backups && p.inj.saved == inj.saved
      && (p.s.child != s.child ==> p.s.child.Some? && UserScript(p.s.child.value.script))
      && (p.poll == Ok(Pending) ==>
            && |p.inj.steps| >= n
            && (forall i :: 0 <= i < |p.inj.steps| - n ==> RunOp(p.inj.steps[i]))
            && p.inj.steps[|p.inj.steps| - n..] == inj.steps[|inj.steps| - n..])
  {
    var t := inj.steps;
    assert RunOp(t[0]);
    assert t[1..][|t| - 1 - n..] == t[|t| - n..];
    PollOnceSteps(s, tid, inj);
    if t[0].Syscall? {
      RunningTail(t, [AwaitReturn] + t[1..], n);
    } else if t[0].Fork? {
      RunningTail(t, [Syscall(FORK)] + t[1..], n);
    }
  }

  /** Putting one running step in place of the first running step keeps the last `n` steps and the running prefix. */
  lemma RunningTail(t: Script, t': Script, n: nat)
    requires |t| > n && forall i :: 0 <= i < |t| - n ==> RunOp(t[i])
    requires |t'| >= 1 && t'[1..] == t[1..] && RunOp(t'[0])
    ensures |t'| > n && forall i :: 0 <= i < |t'| - n ==> RunOp(t'[i])
    ensures t'[|t'| - n..] == t[|t| - n..]
  {
    assert forall i :: 1 <= i < |t'| ==> t'[i] == t[i];
  }

  /** The backup step of a fresh wrapper stores the live registers as both backup and snapshot. */
  lemma PollFresh(s: State, tid: ThreadId, inj: Injector)
    requires WrapFresh(inj)
    ensures var p := PollOnce(s, tid, inj);
      && p.poll == Ok(Pending) && p.s.child == s.child
      && p.s.backups == s.backups[tid := s.cpu] && p.inj.saved == s.cpu
      && WrapTail(p.inj.steps)
  {
  }

  /** A running step of a started wrapper keeps it started and its backup as it was. */
  lemma PollWrapRunning(s: State, tid: ThreadId, inj: Injector)
    requires WrapTail(inj.steps) && |inj.steps| > 2
    ensures var p := PollOnce(s, tid, inj);
      && p.s.backups == s.backups && p.inj.saved == inj.saved
      && (p.s.child != s.child ==> p.s.child.Some? && UserScript(p.s.child.value.script))
      && (p.poll == Ok(Pending) ==> WrapTail(p.inj.steps))
  {
    var p := PollOnce(s, tid, inj);
    PollRunning(s, tid, inj, 2);
    if p.poll == Ok(Pending) {
      var t' := p.inj.steps;
      assert t'[|t'| - 2] == t'[|t'| - 2..][0] && t'[|t'| - 1] == t'[|t'| - 2..][1];
    }
  }

  /** A running step of a fork child keeps it a child; the thread has no backup to lose. */
  lemma PollChildRunning(s: State, tid: ThreadId, inj: Injector)
    requires ChildTail(inj.steps) && |inj.steps| > 1
    ensures var p := PollOnce(s, tid, inj);
      && p.s.backups == s.backups
      && (p.s.child != s.child ==> p.s.child.Some? && UserScript(p.s.child.value.script))
      && (p.poll == Ok(Pending) ==> ChildTail(p.inj.steps))
  {
    var p := PollOnce(s, tid, inj);
    PollRunning(s, tid, inj, 1);
    if p.poll == Ok(Pending) {
      var t' := p.inj.steps;
      assert t'[|t'| - 1] == t'[|t'| - 1..][0];
    }
  }

  /** A started wrapper or a child is never mistaken for the other. */
  lemma ShapesDisjoint(inj: Injector)
    ensures ChildTail(inj.steps) ==> !WrapStarted(inj) && !WrapFresh(inj)
    ensures WrapFresh(inj) ==> !WrapStarted(inj)
  {
    var t := inj.steps;
    if WrapFresh(inj) && |t| > 2 {
      assert |t| - 1 - 2 >= 0 ==> RunOp(t[1..][0]) || t[1..][0] == RestoreRegs;
    }
  }

  /**
    One poll of the head of `tid`'s queue keeps the backup matched to the head:
    the backup step stores exactly the snapshot the wrapper holds, the steps in
    between leave it alone, and the drop step removes it as the wrapper ends.
    No other thread's backup changes, and a fork hands over user code.
   */
  lemma PollOnceKeepsBackup(s: State, tid: ThreadId, inj: Injector)
    requires HeadShape(inj) && BackupMatches(s.backups, tid, inj)
    ensures var p := PollOnce(s, tid, inj);
      && OthersKept(s.backups, p.s.backups, tid)
      && (p.poll == Ok(Ready) ==> tid !in s.backups)
      && (p.poll == Ok(Pending) ==> HeadShape(p.inj) && BackupMatches(p.s.backups, tid, p.inj))
      && (p.s.child != s.child ==> p.s.child.Some? && UserScript(p.s.child.value.script))
  {
    var p := PollOnce(s, tid, inj);
    var t := inj.steps;
    ShapesDisjoint(inj);
    if t == [] {
    } else if WrapFresh(inj) {
      PollFresh(s, tid, inj);
    } else if WrapTail(t) {
      if |t| == 2 {
        assert t == [RestoreRegs, ClearBackup];
        assert p.inj.steps == [ClearBackup];
      } else {
        PollWrapRunning(s, tid, inj);
      }
    } else if t == [ClearBackup] {
      assert p.inj.steps == [];
    } else {
      assert ChildTail(t);
      if |t| == 1 {
        assert p.inj.steps == [];
      } else {
        PollChildRunning(s, tid, inj);
        ShapesDisjoint(p.inj);
      }
    }
  }

  /** A thread whose queue is well shaped has a backup only while its head wrapper is started. */
  lemma ThreadOkPop(q: seq<Entry>, b: map<ThreadId, Regs>, tid: ThreadId)
    requires q != [] && ThreadOk(q, b, tid) && tid !in b
    ensures ThreadOk(q[1..], b, tid)
  {
    if |q| > 1 {
      assert Queued(q[1..][0].injector);
      ShapesDisjoint(q[1..][0].injector);
    }
  }

  /**
    The loop of `poll_injectors` keeps the backup of `tid` matched to the head
    of its queue, leaves every other thread's backup alone, and hands only user
    code to the fork slot.
   */
  lemma {:induction false} PollQueueKeepsBackup(s: State, tid: ThreadId, asid: Word)
    requires tid in s.injectors && ThreadOk(s.injectors[tid], s.backups, tid)
    ensures var r := PollQueue(s, tid, asid);
      && ThreadOk(r.0.injectors[tid], r.0.backups, tid)
      && OthersKept(s.backups, r.0.backups, tid)
      && (r.0.child != s.child ==> r.0.child.Some? && UserScript(r.0.child.value.script))
    decreases |s.injectors[tid]|, HeadWeight(s.injectors[tid])
  {
    var q := s.injectors[tid];
    if q == [] || q[0].asid != asid {
      return;
    }
    var s1 := s.(injectorAsid := q[0].asid);
    var p := PollOnce(s1, tid, q[0].injector);
    PollOnceKeepsBackup(s1, tid, q[0].injector);
    match p.poll
    case Panic(_) =>
    case Ok(Ready) =>
      var s2 := p.s.(injectors := p.s.injectors[tid := q[1..]]);
      ThreadOkPop(q, s2.backups, tid);
      PollQueueKeepsBackup(s2, tid, asid);
    case Ok(Pending) =>
      var s2 := p.s.(injectors := p.s.injectors[tid := [q[0].(injector := p.inj)] + q[1..]]);
      assert ThreadOk(s2.injectors[tid], s2.backups, tid);
      if !p.s.waiting {
        PollQueueKeepsBackup(s2, tid, asid);
      }
  }

  /** The whole `poll_injectors` keeps the backups matched in the same way. */
  lemma PollInjectorsKeepsBackup(s: State, tid: ThreadId, asid: Word)
    requires tid in s.injectors ==> ThreadOk(s.injectors[tid], s.backups, tid)
    ensures var r := PollInjectors(s, tid, asid);
      && (tid in s.injectors ==> ThreadOk(r.0.injectors[tid], r.0.backups, tid))
      && OthersKept(s.backups, r.0.backups, tid)
      && (tid !in s.injectors ==> r.0.backups == s.backups)
      && (r.0.child != s.child ==> r.0.child.Some? && UserScript(r.0.child.value.script))
  {
    if tid in s.injectors {
      PollQueueKeepsBackup(s.(waiting := false), tid, asid);
    }
  }

  /**
    Restoring from a started wrapper gives back the registers its thread has
    backed up: the backup and the wrapper's snapshot are one and the same.
   */
  lemma RestoreGivesBackup(s: State, tid: ThreadId, inj: Injector)
    requires BackupMatches(s.backups, tid, inj) && WrapStarted(inj) && inj.steps[0] == RestoreRegs
    ensures tid in s.backups
    ensures var p := PollOnce(s, tid, inj);
      forall g :: g in s.backups[tid] ==> g in p.s.cpu && p.s.cpu[g] == s.backups[tid][g]
  {
  }

  /**
    The first `run_injector` of the process, on user code and with no backups,
    leaves its thread with a matched backup: the wrapper has saved the live
    registers and still holds them unless it has already finished.
   */
  lemma RunInjectorFirstBackup(s: State, tid: ThreadId, asid: Word, pc: Word, user: Script)
    requires s.injectors == map[] && s.backups == map[] && UserScript(user)
    ensures var r := RunInjector(s, tid, asid, pc, user);
      && tid in r.0.injectors && ThreadOk(r.0.injectors[tid], r.0.backups, tid)
      && r.0.backups.Keys <= {tid}
  {
    var s2 := s.(injectors := map[tid := [Entry(asid, Wrap(user))]], hooks := Some(Hooks(pc, true, true)));
    WrapIsFresh(user);
    ShapesDisjoint(Wrap(user));
    assert ThreadOk(s2.injectors[tid], s2.backups, tid);
    PollInjectorsKeepsBackup(s2, tid, asid);
  }
}

/**
  The backup invariant over every run of the scheduler from process start in
  which the analysis code hands over user code only.
 */
module InjectionBackupRuns {
  import opened InjectionTypes
  import opened InjectionModel
  import opened InjectionEngine
  import opened InjectionBackups

  /** Every queue agrees with its thread's backup, and only a thread with a queue has one. */
  ghost predicate QueuesOk(s: State) {
    && (forall t :: t in s.injectors ==> ThreadOk(s.injectors[t], s.backups, t))
    && (forall t :: t in s.backups ==> t in s.injectors)
  }

  /** The queues agree with the backups, and the fork slot and the one-shot callbacks hold user code. */
  ghost predicate BackupsOk(s: State) {
    && QueuesOk(s)
    && (s.child.Some? ==> UserScript(s.child.value.script))
    && (forall h :: 0 <= h < |s.nextHooks| && s.nextHooks[h].pending.Some? ==>
          UserScript(s.nextHooks[h].pending.value))
  }

  /** A call from the analysis code hands over user code, not the scheduler's own steps. */
  predicate UserCall(c: Call) {
    match c
    case RunInjectorCall(_, _, _, user) => UserScript(user)
    case RunInjectorNextSyscallCall(user) => UserScript(user)
    case _ => true
  }

  lemma ThreadOkFrame(q: seq<Entry>, b: map<ThreadId, Regs>, b': map<ThreadId, Regs>, tid: ThreadId)
    requires ThreadOk(q, b, tid) && (tid in b <==> tid in b') && (tid in b ==> b[tid] == b'[tid])
    ensures ThreadOk(q, b', tid)
  {
  }

  /** Queuing a fresh computation at the back of a thread's queue keeps the queues matched. */
  lemma PushKeeps(s: State, tid: ThreadId, e: Entry)
    requires QueuesOk(s) && Queued(e.injector)
    ensures QueuesOk(Push(s, tid, e))
  {
    var r := Push(s, tid, e);
    var q := Queue(s, tid);
    ShapesDisjoint(e.injector);
    assert tid !in s.injectors ==> tid !in s.backups;
    if q == [] {
      assert q + [e] == [e];
    } else {
      forall i | 1 <= i < |q + [e]| ensures Queued((q + [e])[i].injector) {
        if i < |q| {
          assert (q + [e])[i] == q[i];
        }
      }
    }
    assert ThreadOk(Queue(r, tid), r.backups, tid);
  }

  /** `poll_injectors` keeps the queues matched and the fork slot filled with user code. */
  lemma PollInjectorsQueuesOk(s: State, tid: ThreadId, asid: Word)
    requires BackupsOk(s)
    ensures BackupsOk(PollInjectors(s, tid, asid).0)
  {
    var r := PollInjectors(s, tid, asid).0;
    PollInjectorsKeepsBackup(s, tid, asid);
    forall t | t in r.injectors && t != tid ensures ThreadOk(r.injectors[t], r.backups, t) {
      ThreadOkFrame(s.injectors[t], s.backups, r.backups, t);
    }
    forall t | t in r.backups ensures t in r.injectors {
      if t != tid {
        assert t in s.backups;
      } else if tid !in s.injectors {
        assert t in s.backups;
      }
    }
  }

  /** `run_injector` on user code keeps the backup invariant. */
  lemma RunInjectorKeeps(s: State, tid: ThreadId, asid: Word, pc: Word, user: Script)
    requires BackupsOk(s) && UserScript(user)
    ensures BackupsOk(RunInjector(s, tid, asid, pc, user).0)
  {
    var e := Entry(asid, Wrap(user));
    WrapIsFresh(user);
    if s.injectors != map[] {
      PushKeeps(s, tid, e);
    } else {
      assert s.backups.Keys == {};
      var s2 := s.(injectors := map[tid := [e]], hooks := Some(Hooks(pc, true, true)));
      ShapesDisjoint(Wrap(user));
      assert QueuesOk(s2);
      PollInjectorsQueuesOk(s2, tid, asid);
    }
  }

  /** The `sys_enter` callback keeps the backup invariant. */
  lemma SysEnterKeeps(s: State, tid: ThreadId, asid: Word)
    requires BackupsOk(s) && s.hooks.Some?
    ensures BackupsOk(SysEnter(s, tid, asid).0)
  {
    PollInjectorsQueuesOk(s, tid, asid);
  }

  /** The `sys_return` callback keeps the backup invariant: a fork child is queued fresh. */
  lemma SysReturnKeeps(s: State, tid: ThreadId, asid: Word, ret: Word)
    requires BackupsOk(s) && s.hooks.Some?
    ensures BackupsOk(SysReturn(s, tid, asid, ret).0)
  {
    var r := SysReturn(s, tid, asid, ret);
    if IsForkChild(s, ret) && s.child.Some? {
      var c := s.child.value;
      var s1 := s.(child := None);
      ChildWrapIsQueued(c);
      PushKeeps(s1, tid, Entry(asid, ChildWrap(c)));
      assert r.0.injectors == Push(s1, tid, Entry(asid, ChildWrap(c))).injectors;
    }
  }

  /** A one-shot callback runs the user code it holds and keeps the backup invariant. */
  lemma NextSyscallKeeps(s: State, h: nat, tid: ThreadId, asid: Word, pc: Word)
    requires BackupsOk(s) && h < |s.nextHooks|
    ensures BackupsOk(NextSyscall(s, h, tid, asid, pc).0)
  {
    if s.nextHooks[h].pending.Some? {
      var user := s.nextHooks[h].pending.value;
      var taken := s.(nextHooks := s.nextHooks[h := s.nextHooks[h].(pending := None)]);
      assert BackupsOk(taken);
      RunInjectorKeeps(taken, tid, asid, pc, user);
    }
  }

  /** Every call of the analysis code or the engine keeps the backup invariant. */
  lemma ApplyKeeps(s: State, c: Call)
    requires BackupsOk(s) && UserCall(c)
    ensures BackupsOk(Apply(s, c).0)
  {
    match c
    case RunInjectorCall(tid, asid, pc, user) => RunInjectorKeeps(s, tid, asid, pc, user);
    case SysEnterEvent(tid, asid) =>
      if s.hooks.Some? && s.hooks.value.enterOn {
        SysEnterKeeps(s, tid, asid);
      }
    case SysReturnEvent(tid, asid, ret) =>
      if s.hooks.Some? && s.hooks.value.returnOn {
        SysReturnKeeps(s, tid, asid, ret);
      }
    case RunInjectorNextSyscallCall(user) =>
    case NextSyscallEvent(h, tid, asid, pc) =>
      if h < |s.nextHooks| && s.nextHooks[h].enabled {
        NextSyscallKeeps(s, h, tid, asid, pc);
      }
  }

  /** Every run of user calls keeps the backup invariant. */
  lemma {:induction false} RunKeeps(s: State, calls: seq<Call>)
    requires BackupsOk(s) && forall i :: 0 <= i < |calls| ==> UserCall(calls[i])
    ensures BackupsOk(Run(s, calls).0)
    decreases |calls|
  {
    if calls != [] {
      ApplyKeeps(s, calls[0]);
      var (s1, o) := Apply(s, calls[0]);
      if o.Ok? {
        assert forall i :: 0 <= i < |calls[1..]| ==> UserCall(calls[1..][i]) by {
          forall i | 0 <= i < |calls[1..]| ensures UserCall(calls[1..][i]) {
            assert calls[1..][i] == calls[i + 1];
          }
        }
        RunKeeps(s1, calls[1..]);
      }
    }
  }

  /**
    After any run from process start in which the analysis code hands over
    user code only, a thread has a register backup exactly while the head of
    its queue is a `run_injector` wrapper that has saved the registers and not
    dropped them, and the backup is the snapshot that wrapper will restore.
   */
  lemma BackupIsRunningWrapper(cpu: Regs, calls: seq<Call>, tid: ThreadId)
    requires forall i :: 0 <= i < |calls| ==> UserCall(calls[i])
    ensures var t := Run(Initial(cpu), calls).0;
      && (tid in t.backups <==> tid in t.injectors && t.injectors[tid] != [] && WrapStarted(t.injectors[tid][0].injector))
      && (tid in t.backups ==> t.backups[tid] == t.injectors[tid][0].injector.saved)
  {
    RunKeeps(Initial(cpu), calls);
  }
}
