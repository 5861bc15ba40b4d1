/**
  A computation that issues `N` syscalls in a row: each issue, the return of
  its result, and the delivery of that result to the computation, in order,
  with the replays the callbacks ask of the engine in between.
 */
module InjectionExchange {
  import opened InjectionTypes
  import opened InjectionModel
  import opened InjectionEngine
  import opened InjectionProperties
  import opened InjectionScenario

  /** A syscall of the computation, issued after `host` steps of host code (`println!` between two `.await`s, say). */
  datatype HostCall = HostCall(host: nat, num: Word)

  /** `k` steps of host code. */
  function Locals(k: nat): Script {
    if k == 0 then [] else [Local] + Locals(k - 1)
  }

  /** The steps of a computation that, for each of `cs` in order, runs its host code and then issues its syscall. */
  function Calls(cs: seq<HostCall>): Script {
    if cs == [] then [] else Locals(cs[0].host) + ([Syscall(cs[0].num)] + Calls(cs[1..]))
  }

  /** The syscall numbers of `cs`. */
  function Nums(cs: seq<HostCall>): seq<Word> {
    seq(|cs|, i requires 0 <= i < |cs| => cs[i].num)
  }

  /** For each result in `vs`: its return event, then the next sys_enter of the same thread. */
  function ExchangeCalls(tid: ThreadId, asid: Word, vs: seq<Word>): seq<Call> {
    if vs == [] then []
    else [SysReturnEvent(tid, asid, vs[0]), SysEnterEvent(tid, asid)] + ExchangeCalls(tid, asid, vs[1..])
  }

  /**
    What those events emit for the results `vs` while the syscalls of `cs` are
    issued next: the replay of each return, the delivery of its result, the
    issue of the next syscall and its replay.
   */
  function ExchangeTrace(pc: Word, vs: seq<Word>, cs: seq<HostCall>): seq<Event>
    requires |vs| == |cs|
  {
    if vs == [] then []
    else [SetPc(pc), ExitLoop, Delivered(vs[0]), Issue(cs[0].num), SetPc(pc), ExitLoop] +
         ExchangeTrace(pc, vs[1..], cs[1..])
  }

  /** The queue `q` with the steps of its head replaced. */
  function WithHead(q: seq<Entry>, steps: Script): seq<Entry>
    requires q != []
  {
    [q[0].(injector := q[0].injector.(steps := steps))] + q[1..]
  }

  /**
    Thread `tid` waits for the result of syscall `n`: the head of its queue, in
    `asid`, awaits it and then runs `rest`; no result is stored, the callbacks
    are on, `n` is the current injector's syscall and RAX still holds it.
   */
  ghost predicate AwaitingResult(s: State, tid: ThreadId, asid: Word, n: Word, rest: Script) {
    && s.hooks.Some? && s.hooks.value.enterOn && s.hooks.value.returnOn
    && tid in s.injectors && s.injectors[tid] != [] && s.injectors[tid][0].asid == asid
    && s.injectors[tid][0].injector.steps == [AwaitReturn] + rest
    && s.retCell.None? && s.lastSyscall == n && s.injectorAsid == asid && !s.loopAgain
    && SYSCALL_RET in s.cpu && s.cpu[SYSCALL_RET] == n
  }

  /** The backup step at the live head, then the loop goes on. */
  lemma SaveStep(s: State, tid: ThreadId, asid: Word, t: Script)
    requires tid in s.injectors && s.injectors[tid] != [] && s.injectors[tid][0].asid == asid
    requires s.injectors[tid][0].injector.steps == [SaveRegs] + t && !s.waiting
    ensures var q := s.injectors[tid];
      PollQueue(s, tid, asid) ==
      PollQueue(s.(injectorAsid := asid, backups := s.backups[tid := s.cpu],
                   injectors := s.injectors[tid := [q[0].(injector := Injector(t, s.cpu))] + q[1..]]), tid, asid)
  {
    PendingHeadContinues(s, tid, asid);
    assert ([SaveRegs] + t)[1..] == t;
  }

  /** One step of host code at the live head, then the loop goes on. */
  lemma LocalStep(s: State, tid: ThreadId, asid: Word, t: Script)
    requires tid in s.injectors && s.injectors[tid] != [] && s.injectors[tid][0].asid == asid
    requires s.injectors[tid][0].injector.steps == [Local] + t && !s.waiting
    ensures PollQueue(s, tid, asid) ==
      PollQueue(s.(injectorAsid := asid, injectors := s.injectors[tid := WithHead(s.injectors[tid], t)]), tid, asid)
  {
    PendingHeadContinues(s, tid, asid);
    assert ([Local] + t)[1..] == t;
  }

  /** The host code at the live head runs through without any effect, and the loop goes on. */
  lemma {:induction false} LocalsStep(s: State, tid: ThreadId, asid: Word, k: nat, t: Script)
    requires tid in s.injectors && s.injectors[tid] != [] && s.injectors[tid][0].asid == asid
    requires s.injectors[tid][0].injector.steps == Locals(k) + t && !s.waiting
    ensures PollQueue(s, tid, asid) ==
      PollQueue(s.(injectorAsid := asid, injectors := s.injectors[tid := WithHead(s.injectors[tid], t)]), tid, asid)
    decreases k
  {
    if k == 0 {
      LocalsNone(s, tid, asid, t);
    } else {
      var q := s.injectors[tid];
      assert Locals(k) + t == [Local] + (Locals(k - 1) + t);
      LocalStep(s, tid, asid, Locals(k - 1) + t);
      var s1 := s.(injectorAsid := asid, injectors := s.injectors[tid := WithHead(q, Locals(k - 1) + t)]);
      LocalsStep(s1, tid, asid, k - 1, t);
      LocalsAgain(s, tid, asid, Locals(k - 1) + t, t);
    }
  }

  /** No host code: recording the head's asid and keeping its steps changes nothing. */
  lemma LocalsNone(s: State, tid: ThreadId, asid: Word, t: Script)
    requires tid in s.injectors && s.injectors[tid] != [] && s.injectors[tid][0].asid == asid
    requires s.injectors[tid][0].injector.steps == Locals(0) + t
    ensures PollQueue(s, tid, asid) ==
      PollQueue(s.(injectorAsid := asid, injectors := s.injectors[tid := WithHead(s.injectors[tid], t)]), tid, asid)
  {
    var q := s.injectors[tid];
    assert Locals(0) + t == t;
    WithHeadSame(q);
    assert s.injectors[tid := WithHead(q, t)] == s.injectors;
    PollQueueSetsAsid(s, tid, asid);
  }

  /** Replacing the head's steps by `a` and then by `b` is replacing them by `b`. */
  lemma LocalsAgain(s: State, tid: ThreadId, asid: Word, a: Script, b: Script)
    requires tid in s.injectors && s.injectors[tid] != []
    ensures var s1 := s.(injectorAsid := asid, injectors := s.injectors[tid := WithHead(s.injectors[tid], a)]);
      s1.(injectorAsid := asid, injectors := s1.injectors[tid := WithHead(s1.injectors[tid], b)]) ==
      s.(injectorAsid := asid, injectors := s.injectors[tid := WithHead(s.injectors[tid], b)])
  {
    WithHeadTwice(s.injectors[tid], a, b);
  }

  /** The loop records the head's asid before anything else, so recording it beforehand changes nothing. */
  lemma PollQueueSetsAsid(s: State, tid: ThreadId, asid: Word)
    requires tid in s.injectors && s.injectors[tid] != [] && s.injectors[tid][0].asid == asid
    ensures PollQueue(s, tid, asid) == PollQueue(s.(injectorAsid := asid), tid, asid)
  {
  }

  /** The issue of syscall `m` at the live head, then the loop goes on. */
  lemma IssueStep(s: State, tid: ThreadId, asid: Word, m: Word, t: Script)
    requires tid in s.injectors && s.injectors[tid] != [] && s.injectors[tid][0].asid == asid
    requires s.injectors[tid][0].injector.steps == [Syscall(m)] + t && !s.waiting
    ensures PollQueue(s, tid, asid) ==
      PollQueue(s.(injectorAsid := asid, lastSyscall := m, retCell := None, cpu := s.cpu[SYSCALL_RET := m],
                   trace := s.trace + [Issue(m)],
                   injectors := s.injectors[tid := WithHead(s.injectors[tid], [AwaitReturn] + t)]), tid, asid)
  {
    PendingHeadContinues(s, tid, asid);
    assert ([Syscall(m)] + t)[1..] == t;
  }

  /** The delivery of the stored result to the live head, then the loop goes on. */
  lemma DeliverStep(s: State, tid: ThreadId, asid: Word, t: Script)
    requires tid in s.injectors && s.injectors[tid] != [] && s.injectors[tid][0].asid == asid
    requires s.injectors[tid][0].injector.steps == [AwaitReturn] + t && s.retCell.Some? && !s.waiting
    ensures PollQueue(s, tid, asid) ==
      PollQueue(s.(injectorAsid := asid, retCell := None, trace := s.trace + [Delivered(s.retCell.value)],
                   injectors := s.injectors[tid := WithHead(s.injectors[tid], t)]), tid, asid)
  {
    PendingHeadContinues(s, tid, asid);
    assert ([AwaitReturn] + t)[1..] == t;
  }

  /** Replacing the head's steps twice is replacing them once. */
  lemma WithHeadTwice(q: seq<Entry>, a: Script, b: Script)
    requires q != []
    ensures WithHead(WithHead(q, a), b) == WithHead(q, b)
  {
    assert WithHead(q, a)[1..] == q[1..];
  }

  /** Replacing the head's steps by its own steps changes nothing. */
  lemma WithHeadSame(q: seq<Entry>)
    requires q != []
    ensures WithHead(q, q[0].injector.steps) == q
  {
  }

  /** The issue of the next syscall `m`, and the stop at its result. */
  lemma IssueThenWait(s: State, tid: ThreadId, asid: Word, m: Word, t: Script)
    requires tid in s.injectors && s.injectors[tid] != [] && s.injectors[tid][0].asid == asid
    requires s.injectors[tid][0].injector.steps == [Syscall(m)] + t && !s.waiting
    ensures PollQueue(s, tid, asid) ==
      (s.(injectorAsid := asid, lastSyscall := m, retCell := None, cpu := s.cpu[SYSCALL_RET := m],
          trace := s.trace + [Issue(m)], waiting := true,
          injectors := s.injectors[tid := WithHead(s.injectors[tid], [AwaitReturn] + t)]), Ok(false))
  {
    IssueStep(s, tid, asid, m, t);
    var q := s.injectors[tid];
    var sB := s.(injectorAsid := asid, lastSyscall := m, retCell := None, cpu := s.cpu[SYSCALL_RET := m],
                 trace := s.trace + [Issue(m)], injectors := s.injectors[tid := WithHead(q, [AwaitReturn] + t)]);
    WaitingHeadStays(sB, tid, asid);
  }

  /** The host code of `c`, then the issue of its syscall, and the stop at its result. */
  lemma HostThenIssue(s: State, tid: ThreadId, asid: Word, c: HostCall, t: Script)
    requires tid in s.injectors && s.injectors[tid] != [] && s.injectors[tid][0].asid == asid
    requires s.injectors[tid][0].injector.steps == Locals(c.host) + ([Syscall(c.num)] + t) && !s.waiting
    ensures PollQueue(s, tid, asid) ==
      (s.(injectorAsid := asid, lastSyscall := c.num, retCell := None, cpu := s.cpu[SYSCALL_RET := c.num],
          trace := s.trace + [Issue(c.num)], waiting := true,
          injectors := s.injectors[tid := WithHead(s.injectors[tid], [AwaitReturn] + t)]), Ok(false))
  {
    var q := s.injectors[tid];
    LocalsStep(s, tid, asid, c.host, [Syscall(c.num)] + t);
    var s1 := s.(injectorAsid := asid, injectors := s.injectors[tid := WithHead(q, [Syscall(c.num)] + t)]);
    IssueThenWait(s1, tid, asid, c.num, t);
    WithHeadTwice(q, [Syscall(c.num)] + t, [AwaitReturn] + t);
    assert s1.injectors[tid := WithHead(s1.injectors[tid], [AwaitReturn] + t)] ==
           s.injectors[tid := WithHead(q, [AwaitReturn] + t)];
  }

  /** The sys_return of a result `v` that is not a fork child's: stored, and the syscall replayed. */
  lemma ReturnStores(s: State, tid: ThreadId, asid: Word, n: Word, v: Word, rest: Script)
    requires AwaitingResult(s, tid, asid, n, rest) && !(n == FORK && v == 0)
    ensures Apply(s, SysReturnEvent(tid, asid, v)) ==
      (s.(loopAgain := true, retCell := Some(v), trace := s.trace + [SetPc(s.hooks.value.pc), ExitLoop]), Ok(()))
  {
  }

  /**
    The next sys_enter after a stored result `v`: `v` is delivered, the host
    code of `c` runs, its syscall is issued, the thread waits for its result,
    and the syscall is replayed.
   */
  lemma EnterDelivers(s: State, tid: ThreadId, asid: Word, v: Word, c: HostCall, rest: Script)
    requires s.hooks.Some? && s.hooks.value.enterOn && s.loopAgain && s.retCell == Some(v)
    requires tid in s.injectors && s.injectors[tid] != [] && s.injectors[tid][0].asid == asid
    requires s.injectors[tid][0].injector.steps == [AwaitReturn] + (Locals(c.host) + ([Syscall(c.num)] + rest))
    ensures Apply(s, SysEnterEvent(tid, asid)) ==
      (s.(waiting := true, injectorAsid := asid, loopAgain := false, lastSyscall := c.num, retCell := None,
          cpu := s.cpu[SYSCALL_RET := c.num],
          trace := s.trace + [Delivered(v), Issue(c.num), SetPc(s.hooks.value.pc), ExitLoop],
          injectors := s.injectors[tid := WithHead(s.injectors[tid], [AwaitReturn] + rest)]), Ok(()))
  {
    var q := s.injectors[tid];
    var m := c.num;
    var s0 := s.(waiting := false);
    var t := Locals(c.host) + ([Syscall(m)] + rest);
    DeliverStep(s0, tid, asid, t);
    var sA := s0.(injectorAsid := asid, retCell := None, trace := s0.trace + [Delivered(v)],
                  injectors := s0.injectors[tid := WithHead(q, t)]);
    HostThenIssue(sA, tid, asid, c, rest);
    WithHeadTwice(q, t, [AwaitReturn] + rest);
    var polled := sA.(injectorAsid := asid, lastSyscall := m, retCell := None, cpu := sA.cpu[SYSCALL_RET := m],
                      trace := sA.trace + [Issue(m)], waiting := true,
                      injectors := sA.injectors[tid := WithHead(sA.injectors[tid], [AwaitReturn] + rest)]);
    assert PollInjectors(s, tid, asid) == (polled, Ok(false));
    assert SysEnter(s, tid, asid) == (Replay(polled).(loopAgain := false), Ok(()));
    assert polled.injectors == s.injectors[tid := WithHead(q, [AwaitReturn] + rest)];
    assert Replay(polled).trace == s.trace + [Delivered(v), Issue(m), SetPc(s.hooks.value.pc), ExitLoop];
  }

  /** The state after one exchange from `s`: the result `v` delivered, syscall `m` issued and awaited. */
  ghost function Exchanged(s: State, tid: ThreadId, v: Word, m: Word, rest: Script): State
    requires s.hooks.Some? && tid in s.injectors && s.injectors[tid] != []
  {
    s.(loopAgain := false, lastSyscall := m, retCell := None, cpu := s.cpu[SYSCALL_RET := m], waiting := true,
       injectorAsid := s.injectors[tid][0].asid,
       trace := s.trace + [SetPc(s.hooks.value.pc), ExitLoop, Delivered(v), Issue(m), SetPc(s.hooks.value.pc), ExitLoop],
       injectors := s.injectors[tid := WithHead(s.injectors[tid], [AwaitReturn] + rest)])
  }

  /** The two events of one exchange, each on its own. */
  lemma ExchangeEvents(s: State, tid: ThreadId, asid: Word, n: Word, v: Word, c: HostCall, rest: Script)
    requires AwaitingResult(s, tid, asid, n, Locals(c.host) + ([Syscall(c.num)] + rest)) && !(n == FORK && v == 0)
    ensures var s1 := s.(loopAgain := true, retCell := Some(v), trace := s.trace + [SetPc(s.hooks.value.pc), ExitLoop]);
      && Apply(s, SysReturnEvent(tid, asid, v)) == (s1, Ok(()))
      && Apply(s1, SysEnterEvent(tid, asid)) == (Exchanged(s, tid, v, c.num, rest), Ok(()))
  {
    ReturnStores(s, tid, asid, n, v, Locals(c.host) + ([Syscall(c.num)] + rest));
    var s1 := s.(loopAgain := true, retCell := Some(v), trace := s.trace + [SetPc(s.hooks.value.pc), ExitLoop]);
    EnterDelivers(s1, tid, asid, v, c, rest);
    assert s1.trace + [Delivered(v), Issue(c.num), SetPc(s.hooks.value.pc), ExitLoop] ==
           s.trace + [SetPc(s.hooks.value.pc), ExitLoop, Delivered(v), Issue(c.num), SetPc(s.hooks.value.pc), ExitLoop];
  }

  /** After one exchange the thread waits on the syscall of `c` and then runs `rest`. */
  lemma ExchangedAwaits(s: State, tid: ThreadId, asid: Word, n: Word, v: Word, c: HostCall, rest: Script)
    requires AwaitingResult(s, tid, asid, n, Locals(c.host) + ([Syscall(c.num)] + rest))
    ensures AwaitingResult(Exchanged(s, tid, v, c.num, rest), tid, asid, c.num, rest)
  {
  }

  /** One exchange, followed by any further calls. */
  lemma Exchange(s: State, tid: ThreadId, asid: Word, n: Word, v: Word, c: HostCall, rest: Script, later: seq<Call>)
    requires AwaitingResult(s, tid, asid, n, Locals(c.host) + ([Syscall(c.num)] + rest)) && !(n == FORK && v == 0)
    ensures Run(s, [SysReturnEvent(tid, asid, v), SysEnterEvent(tid, asid)] + later) ==
            Run(Exchanged(s, tid, v, c.num, rest), later)
  {
    ExchangeEvents(s, tid, asid, n, v, c, rest);
    var s1 := s.(loopAgain := true, retCell := Some(v), trace := s.trace + [SetPc(s.hooks.value.pc), ExitLoop]);
    RunStep(s1, SysEnterEvent(tid, asid), later, Exchanged(s, tid, v, c.num, rest));
    RunStep(s, SysReturnEvent(tid, asid, v), [SysEnterEvent(tid, asid)] + later, s1);
    assert [SysReturnEvent(tid, asid, v), SysEnterEvent(tid, asid)] + later ==
           [SysReturnEvent(tid, asid, v)] + ([SysEnterEvent(tid, asid)] + later);
  }

  /**
    `r` is where the exchanges of the results `vs` for the syscalls of `cs` end
    up from `s`: no panic, the thread waits on `last` and then runs `rest`, and
    only the effects, the head's steps, RAX and the syscall bookkeeping changed.
   */
  ghost predicate ExchangesEnd(s: State, r: (State, Outcome<()>), tid: ThreadId, asid: Word, last: Word,
                               vs: seq<Word>, cs: seq<HostCall>, rest: Script)
    requires |vs| == |cs|
  {
    && s.hooks.Some? && tid in s.injectors && s.injectors[tid] != []
    && r.1 == Ok(())
    && AwaitingResult(r.0, tid, asid, last, rest)
    && r.0.trace == s.trace + ExchangeTrace(s.hooks.value.pc, vs, cs)
    && r.0.injectors == s.injectors[tid := WithHead(s.injectors[tid], [AwaitReturn] + rest)]
    && r.0.hooks == s.hooks && r.0.backups == s.backups && r.0.child == s.child
    && r.0.cpu == s.cpu[SYSCALL_RET := last]
  }

  /** Where the later exchanges end from the state after the first one is where all of them end. */
  lemma ExchangesEndStep(s: State, r: (State, Outcome<()>), tid: ThreadId, asid: Word, last: Word,
                         vs: seq<Word>, cs: seq<HostCall>, rest: Script)
    requires |vs| == |cs| && vs != [] && s.hooks.Some? && tid in s.injectors && s.injectors[tid] != []
    requires ExchangesEnd(Exchanged(s, tid, vs[0], cs[0].num, Calls(cs[1..]) + rest), r, tid, asid, last,
                          vs[1..], cs[1..], rest)
    ensures ExchangesEnd(s, r, tid, asid, last, vs, cs, rest)
  {
    var q := s.injectors[tid];
    WithHeadTwice(q, [AwaitReturn] + (Calls(cs[1..]) + rest), [AwaitReturn] + rest);
    assert r.0.injectors == s.injectors[tid := WithHead(q, [AwaitReturn] + rest)];
    assert r.0.trace == s.trace + ExchangeTrace(s.hooks.value.pc, vs, cs);
    assert r.0.cpu == s.cpu[SYSCALL_RET := cs[0].num][SYSCALL_RET := last] == s.cpu[SYSCALL_RET := last];
  }

  /**
    A thread waiting on syscall `n`, whose head goes on to run the host code
    and issue the syscall of each of `cs`, answered with the results `vs`: each
    result is delivered after its syscall was issued and before the next one
    is, in order; afterwards the head waits on the last syscall and then runs
    `rest`. No other queue, no backup and not the fork slot changes; RAX holds
    the last syscall.
   */
  lemma {:induction false} ExchangesInOrder(s: State, tid: ThreadId, asid: Word, n: Word, cs: seq<HostCall>,
                                             vs: seq<Word>, rest: Script)
    requires AwaitingResult(s, tid, asid, n, Calls(cs) + rest) && |vs| == |cs|
    requires forall i :: 0 <= i < |vs| ==> !(([n] + Nums(cs))[i] == FORK && vs[i] == 0)
    ensures ExchangesEnd(s, Run(s, ExchangeCalls(tid, asid, vs)), tid, asid, ([n] + Nums(cs))[|cs|], vs, cs, rest)
    decreases |vs|
  {
    if vs == [] {
      ExchangesNone(s, tid, asid, n, rest);
    } else {
      var c := cs[0];
      var t' := Calls(cs[1..]) + rest;
      assert Calls(cs) + rest == Locals(c.host) + ([Syscall(c.num)] + t');
      Exchange(s, tid, asid, n, vs[0], c, t', ExchangeCalls(tid, asid, vs[1..]));
      var t := Exchanged(s, tid, vs[0], c.num, t');
      ExchangedAwaits(s, tid, asid, n, vs[0], c, t');
      NoForkChildLater(n, cs, vs);
      ExchangesInOrder(t, tid, asid, c.num, cs[1..], vs[1..], rest);
      ExchangesEndStep(s, Run(t, ExchangeCalls(tid, asid, vs[1..])), tid, asid, ([n] + Nums(cs))[|cs|], vs, cs, rest);
    }
  }

  /** No exchange at all leaves the thread as it was. */
  lemma ExchangesNone(s: State, tid: ThreadId, asid: Word, n: Word, rest: Script)
    requires AwaitingResult(s, tid, asid, n, Calls([]) + rest)
    ensures ExchangesEnd(s, Run(s, ExchangeCalls(tid, asid, [])), tid, asid, ([n] + Nums([]))[0], [], [], rest)
  {
    assert Calls([]) + rest == rest;
    WithHeadSame(s.injectors[tid]);
    assert s.injectors[tid := s.injectors[tid]] == s.injectors;
    assert ([n] + Nums([]))[0] == n;
    assert s.cpu[SYSCALL_RET := n] == s.cpu;
  }

  /** No later result is a fork child's return when none of them all is. */
  lemma NoForkChildLater(n: Word, cs: seq<HostCall>, vs: seq<Word>)
    requires |vs| == |cs| && vs != []
    requires forall i :: 0 <= i < |vs| ==> !(([n] + Nums(cs))[i] == FORK && vs[i] == 0)
    ensures !(n == FORK && vs[0] == 0)
    ensures forall i :: 0 <= i < |vs[1..]| ==> !(([cs[0].num] + Nums(cs[1..]))[i] == FORK && vs[1..][i] == 0)
    ensures ([cs[0].num] + Nums(cs[1..]))[|cs[1..]|] == ([n] + Nums(cs))[|cs|]
  {
    assert ([n] + Nums(cs))[0] == n;
    assert [cs[0].num] + Nums(cs[1..]) == Nums(cs);
    forall i | 0 <= i < |vs[1..]| ensures !(([cs[0].num] + Nums(cs[1..]))[i] == FORK && vs[1..][i] == 0) {
      assert ([cs[0].num] + Nums(cs[1..]))[i] == ([n] + Nums(cs))[i + 1];
    }
  }

  /**
    The first poll of a fresh wrapper at the head of the queue of `tid`, in the
    live asid, that runs the host code of `c` and issues its syscall: the
    registers are backed up, the syscall is issued, and the loop stops at its result.
   */
  lemma FirstPoll(s: State, tid: ThreadId, asid: Word, c: HostCall, rest: Script, saved: Regs)
    requires tid in s.injectors && !s.waiting
    requires s.injectors[tid] == [Entry(asid, Injector([SaveRegs] + (Locals(c.host) + ([Syscall(c.num)] + rest)), saved))]
    ensures PollQueue(s, tid, asid) ==
      (s.(injectorAsid := asid, backups := s.backups[tid := s.cpu], lastSyscall := c.num, retCell := None,
          cpu := s.cpu[SYSCALL_RET := c.num], trace := s.trace + [Issue(c.num)], waiting := true,
          injectors := s.injectors[tid := [Entry(asid, Injector([AwaitReturn] + rest, s.cpu))]]), Ok(false))
  {
    var t := Locals(c.host) + ([Syscall(c.num)] + rest);
    var q := s.injectors[tid];
    var e := Entry(asid, Injector(t, s.cpu));
    SaveStep(s, tid, asid, t);
    assert [q[0].(injector := Injector(t, s.cpu))] + q[1..] == [e];
    var sA := s.(injectorAsid := asid, backups := s.backups[tid := s.cpu], injectors := s.injectors[tid := [e]]);
    HostThenIssue(sA, tid, asid, c, rest);
    var h := [Entry(asid, Injector([AwaitReturn] + rest, s.cpu))];
    assert WithHead(sA.injectors[tid], [AwaitReturn] + rest) == h;
    assert sA.injectors[tid := h] == s.injectors[tid := h];
  }

  /** The state the first poll of the process leaves: `c` issued over the snapshot `cpu`, the thread waiting. */
  ghost function FirstIssued(cpu: Regs, tid: ThreadId, asid: Word, pc: Word, n: Word, rest: Script): State {
    Initial(cpu).(injectors := map[tid := [Entry(asid, Injector([AwaitReturn] + rest, cpu))]],
                  hooks := Some(Hooks(pc, true, true)), injectorAsid := asid, backups := map[tid := cpu],
                  lastSyscall := n, retCell := None, cpu := cpu[SYSCALL_RET := n], trace := [Issue(n)], waiting := true)
  }

  /** The poll part of the first `run_injector` of the process. */
  lemma FirstInjectorsPoll(cpu: Regs, tid: ThreadId, asid: Word, pc: Word, c: HostCall, rest: Script, w: Injector)
    requires w.steps == [SaveRegs] + (Locals(c.host) + ([Syscall(c.num)] + rest))
    ensures var s2 := Initial(cpu).(injectors := map[tid := [Entry(asid, w)]], hooks := Some(Hooks(pc, true, true)));
      PollInjectors(s2, tid, asid) == (FirstIssued(cpu, tid, asid, pc, c.num, rest), Ok(false))
  {
    var s2 := Initial(cpu).(injectors := map[tid := [Entry(asid, w)]], hooks := Some(Hooks(pc, true, true)));
    FirstPoll(s2, tid, asid, c, rest, w.saved);
    FirstIssuedState(cpu, tid, asid, pc, c.num, rest, w);
  }

  /** `FirstPoll`'s result from the state `run_injector` polls is `FirstIssued`. */
  lemma FirstIssuedState(cpu: Regs, tid: ThreadId, asid: Word, pc: Word, n: Word, rest: Script, w: Injector)
    ensures var s := Initial(cpu).(injectors := map[tid := [Entry(asid, w)]], hooks := Some(Hooks(pc, true, true)));
      && s.(waiting := false) == s
      && s.(injectorAsid := asid, backups := s.backups[tid := s.cpu], lastSyscall := n, retCell := None,
            cpu := s.cpu[SYSCALL_RET := n], trace := s.trace + [Issue(n)], waiting := true,
            injectors := s.injectors[tid := [Entry(asid, Injector([AwaitReturn] + rest, s.cpu))]])
         == FirstIssued(cpu, tid, asid, pc, n, rest)
  {
    var h := [Entry(asid, Injector([AwaitReturn] + rest, cpu))];
    assert map[tid := [Entry(asid, w)]][tid := h] == map[tid := h];
    assert map[][tid := cpu] == map[tid := cpu];
    assert [] + [Issue(n)] == [Issue(n)];
  }

  /**
    The first `run_injector` of the process on a computation that runs the host
    code of `c`, issues its syscall, and then runs `tail`: the registers are
    backed up, the syscall is issued, and the thread waits for its result.
   */
  lemma FirstIssue(cpu: Regs, tid: ThreadId, asid: Word, pc: Word, c: HostCall, tail: Script)
    ensures var t := RunInjector(Initial(cpu), tid, asid, pc, Locals(c.host) + ([Syscall(c.num)] + tail));
      var rest := tail + [RestoreRegs, ClearBackup];
      && t.1 == Ok(())
      && AwaitingResult(t.0, tid, asid, c.num, rest)
      && t.0.trace == [Issue(c.num)] && t.0.backups == map[tid := cpu] && t.0.child == None
      && t.0.hooks == Some(Hooks(pc, true, true)) && t.0.cpu == cpu[SYSCALL_RET := c.num]
      && t.0.injectors == map[tid := [Entry(asid, Injector([AwaitReturn] + rest, cpu))]]
  {
    var user := Locals(c.host) + ([Syscall(c.num)] + tail);
    var rest := tail + [RestoreRegs, ClearBackup];
    assert Wrap(user).steps == [SaveRegs] + (Locals(c.host) + ([Syscall(c.num)] + rest));
    FirstInjectorsPoll(cpu, tid, asid, pc, c, rest, Wrap(user));
  }

  /** The same first `run_injector`, as a call of the engine. */
  lemma FirstCall(cpu: Regs, tid: ThreadId, asid: Word, pc: Word, c: HostCall, tail: Script)
    ensures Apply(Initial(cpu), RunInjectorCall(tid, asid, pc, Locals(c.host) + ([Syscall(c.num)] + tail))) ==
            (FirstIssued(cpu, tid, asid, pc, c.num, tail + [RestoreRegs, ClearBackup]), Ok(()))
  {
    var user := Locals(c.host) + ([Syscall(c.num)] + tail);
    var rest := tail + [RestoreRegs, ClearBackup];
    assert Wrap(user).steps == [SaveRegs] + (Locals(c.host) + ([Syscall(c.num)] + rest));
    FirstInjectorsPoll(cpu, tid, asid, pc, c, rest, Wrap(user));
  }

  /** The end of the wrapper at a single live head: the registers are restored, the backup dropped, the queue emptied. */
  lemma FinishSteps(s: State, tid: ThreadId, asid: Word, saved: Regs)
    requires tid in s.injectors && s.injectors[tid] == [Entry(asid, Injector([RestoreRegs, ClearBackup], saved))]
    requires !s.waiting
    ensures PollQueue(s, tid, asid) ==
      (s.(injectorAsid := asid, cpu := s.cpu + saved, backups := s.backups - {tid},
          injectors := s.injectors[tid := []]), Ok(true))
  {
    var i0 := Injector([RestoreRegs, ClearBackup], saved);
    PendingHeadContinues(s, tid, asid);
    PollOnceSteps(s.(injectorAsid := asid), tid, i0);
    assert i0.steps[1..] == [ClearBackup];
    var i1 := Injector([ClearBackup], saved);
    var s1 := s.(injectorAsid := asid, cpu := s.cpu + saved, injectors := s.injectors[tid := [Entry(asid, i1)]]);
    assert [Entry(asid, i0).(injector := i1)] + [Entry(asid, i0)][1..] == [Entry(asid, i1)];
    assert PollQueue(s, tid, asid) == PollQueue(s1, tid, asid);
    PendingHeadContinues(s1, tid, asid);
    PollOnceSteps(s1.(injectorAsid := asid), tid, i1);
    var i2 := Injector([], saved);
    var s2 := s1.(backups := s1.backups - {tid}, injectors := s1.injectors[tid := [Entry(asid, i2)]]);
    assert [Entry(asid, i1).(injector := i2)] + [Entry(asid, i1)][1..] == [Entry(asid, i2)];
    assert PollQueue(s1, tid, asid) == PollQueue(s2, tid, asid);
    ReadyHeadPopped(s2, tid, asid);
    assert s2.injectors[tid := []] == s.injectors[tid := []];
  }

  /**
    The poll loop after the last result `v` was stored, at a single entry that
    then runs `k` steps of host code and ends: `v` is delivered, the registers
    are restored, the backup is dropped and the queue is empty.
   */
  lemma LastPoll(s: State, tid: ThreadId, asid: Word, v: Word, k: nat, saved: Regs)
    requires s.retCell == Some(v) && !s.waiting && tid in s.injectors
    requires s.injectors[tid] == [Entry(asid, Injector([AwaitReturn] + (Locals(k) + [RestoreRegs, ClearBackup]), saved))]
    ensures PollQueue(s, tid, asid) ==
      (s.(injectorAsid := asid, retCell := None, cpu := s.cpu + saved, backups := s.backups - {tid},
          injectors := s.injectors[tid := []], trace := s.trace + [Delivered(v)]), Ok(true))
  {
    DeliverThenHost(s, tid, asid, v, k, saved);
    var sB := s.(injectorAsid := asid, retCell := None, trace := s.trace + [Delivered(v)],
                 injectors := s.injectors[tid := [Entry(asid, Injector([RestoreRegs, ClearBackup], saved))]]);
    FinishSteps(sB, tid, asid, saved);
    assert sB.injectors[tid := []] == s.injectors[tid := []];
  }

  /** The delivery of the last result, then the host code after the last syscall. */
  lemma DeliverThenHost(s: State, tid: ThreadId, asid: Word, v: Word, k: nat, saved: Regs)
    requires s.retCell == Some(v) && !s.waiting && tid in s.injectors
    requires s.injectors[tid] == [Entry(asid, Injector([AwaitReturn] + (Locals(k) + [RestoreRegs, ClearBackup]), saved))]
    ensures PollQueue(s, tid, asid) ==
      PollQueue(s.(injectorAsid := asid, retCell := None, trace := s.trace + [Delivered(v)],
                   injectors := s.injectors[tid := [Entry(asid, Injector([RestoreRegs, ClearBackup], saved))]]), tid, asid)
  {
    var t := Locals(k) + [RestoreRegs, ClearBackup];
    DeliverStep(s, tid, asid, t);
    var d := s.(injectorAsid := asid, retCell := None, trace := s.trace + [Delivered(v)],
                injectors := s.injectors[tid := WithHead(s.injectors[tid], t)]);
    LocalsStep(d, tid, asid, k, [RestoreRegs, ClearBackup]);
    LocalsAgain(s.(retCell := None, trace := s.trace + [Delivered(v)]), tid, asid, t, [RestoreRegs, ClearBackup]);
    SingleHead(s.injectors, tid, asid, [AwaitReturn] + t, saved, [RestoreRegs, ClearBackup]);
  }

  /** Replacing the steps of the single entry of `tid`. */
  lemma SingleHead(m: map<ThreadId, seq<Entry>>, tid: ThreadId, asid: Word, steps: Script, saved: Regs, b: Script)
    requires tid in m && m[tid] == [Entry(asid, Injector(steps, saved))]
    ensures m[tid := WithHead(m[tid], b)] == m[tid := [Entry(asid, Injector(b, saved))]]
  {
    assert m[tid][1..] == [];
    assert WithHead(m[tid], b) == [Entry(asid, Injector(b, saved))];
  }

  /**
    The sys_enter after the last result `v` was stored, at a single entry that
    then runs `k` steps of host code: `v` is delivered, the registers are
    restored, the backup is dropped, the queue is empty, both callbacks are
    disabled, and the syscall is replayed one last time.
   */
  lemma EnterFinishes(s: State, tid: ThreadId, asid: Word, v: Word, k: nat, saved: Regs)
    requires s.hooks.Some? && s.hooks.value.enterOn && s.loopAgain && s.retCell == Some(v)
    requires tid in s.injectors
    requires s.injectors[tid] == [Entry(asid, Injector([AwaitReturn] + (Locals(k) + [RestoreRegs, ClearBackup]), saved))]
    ensures Apply(s, SysEnterEvent(tid, asid)) ==
      (s.(waiting := false, injectorAsid := asid, loopAgain := false, retCell := None,
          cpu := s.cpu + saved, backups := s.backups - {tid}, injectors := s.injectors[tid := []],
          hooks := Some(s.hooks.value.(enterOn := false, returnOn := false)),
          trace := s.trace + [Delivered(v), SetPc(s.hooks.value.pc), ExitLoop]), Ok(()))
  {
    LastPoll(s.(waiting := false), tid, asid, v, k, saved);
    var polled := s.(waiting := false, injectorAsid := asid, retCell := None, cpu := s.cpu + saved,
                     backups := s.backups - {tid}, injectors := s.injectors[tid := []],
                     trace := s.trace + [Delivered(v)]);
    assert PollInjectors(s, tid, asid) == (polled, Ok(true));
    assert polled.injectors[tid] == [];
    var d := Disable(polled);
    assert d.hooks == Some(s.hooks.value.(enterOn := false, returnOn := false));
    assert d.loopAgain;
    assert SysEnter(s, tid, asid) == (Replay(d).(loopAgain := false), Ok(()));
    assert Replay(d).trace == s.trace + [Delivered(v)] + [SetPc(s.hooks.value.pc), ExitLoop];
    assert s.trace + [Delivered(v)] + [SetPc(s.hooks.value.pc), ExitLoop] ==
           s.trace + [Delivered(v), SetPc(s.hooks.value.pc), ExitLoop];
  }

  /** The last exchange: the return of `v`, then the sys_enter that finishes the computation. */
  lemma LastExchange(s: State, tid: ThreadId, asid: Word, n: Word, v: Word, k: nat, saved: Regs)
    requires AwaitingResult(s, tid, asid, n, Locals(k) + [RestoreRegs, ClearBackup]) && !(n == FORK && v == 0)
    requires s.injectors[tid] == [Entry(asid, Injector([AwaitReturn] + (Locals(k) + [RestoreRegs, ClearBackup]), saved))]
    ensures Run(s, ExchangeCalls(tid, asid, [v])) ==
      (s.(waiting := false, retCell := None, cpu := s.cpu + saved, backups := s.backups - {tid},
          injectors := s.injectors[tid := []], hooks := Some(s.hooks.value.(enterOn := false, returnOn := false)),
          trace := s.trace + [SetPc(s.hooks.value.pc), ExitLoop, Delivered(v), SetPc(s.hooks.value.pc), ExitLoop]), Ok(()))
  {
    ReturnStores(s, tid, asid, n, v, Locals(k) + [RestoreRegs, ClearBackup]);
    var s1 := s.(loopAgain := true, retCell := Some(v), trace := s.trace + [SetPc(s.hooks.value.pc), ExitLoop]);
    EnterFinishes(s1, tid, asid, v, k, saved);
    var pc := s.hooks.value.pc;
    var s2 := s.(waiting := false, retCell := None, cpu := s.cpu + saved, backups := s.backups - {tid},
                 injectors := s.injectors[tid := []], hooks := Some(s.hooks.value.(enterOn := false, returnOn := false)),
                 trace := s.trace + [SetPc(pc), ExitLoop, Delivered(v), SetPc(pc), ExitLoop]);
    LastTrace(s, s1, v);
    assert ExchangeCalls(tid, asid, [v]) == [SysReturnEvent(tid, asid, v)] + [SysEnterEvent(tid, asid)];
    Chain(s1, SysEnterEvent(tid, asid), [], s2, (s2, Ok(())));
    Chain(s, SysReturnEvent(tid, asid, v), [SysEnterEvent(tid, asid)], s1, (s2, Ok(())));
  }

  /** The trace after the last exchange, as the return event and `EnterFinishes` leave it. */
  lemma LastTrace(s: State, s1: State, v: Word)
    requires s.hooks.Some?
    requires s1 == s.(loopAgain := true, retCell := Some(v), trace := s.trace + [SetPc(s.hooks.value.pc), ExitLoop])
    ensures s1.trace + [Delivered(v), SetPc(s1.hooks.value.pc), ExitLoop] ==
            s.trace + [SetPc(s.hooks.value.pc), ExitLoop, Delivered(v), SetPc(s.hooks.value.pc), ExitLoop]
  {
    var pc := s.hooks.value.pc;
    assert [SetPc(pc), ExitLoop] + [Delivered(v), SetPc(pc), ExitLoop] == [SetPc(pc), ExitLoop, Delivered(v), SetPc(pc), ExitLoop];
    assert s.trace + [SetPc(pc), ExitLoop] + [Delivered(v), SetPc(pc), ExitLoop] ==
           s.trace + ([SetPc(pc), ExitLoop] + [Delivered(v), SetPc(pc), ExitLoop]);
  }

  /** Restoring a snapshot over registers whose RAX was overwritten twice gives the snapshot back. */
  lemma RestoreOverRax(cpu: Regs, x: Word, y: Word)
    requires SYSCALL_RET in cpu
    ensures cpu[SYSCALL_RET := x][SYSCALL_RET := y] + cpu == cpu
  {
    assert (cpu[SYSCALL_RET := x][SYSCALL_RET := y] + cpu).Keys == cpu.Keys;
  }

  /**
    `r` is where a computation in the single entry of thread `tid` ends up from
    `s` after the results `vs` for the syscalls of `cs` and then the last result
    `v`, the last syscall being `last`: no panic, the trace, an empty queue, the
    callbacks off, the thread's backup dropped and the snapshot `saved` restored.
   */
  ghost predicate RanToEnd(s: State, r: (State, Outcome<()>), tid: ThreadId, last: Word,
                           vs: seq<Word>, cs: seq<HostCall>, v: Word, saved: Regs)
    requires |vs| == |cs|
  {
    && s.hooks.Some?
    && r.1 == Ok(())
    && r.0.trace == s.trace + ExchangeTrace(s.hooks.value.pc, vs, cs) +
                    [SetPc(s.hooks.value.pc), ExitLoop, Delivered(v), SetPc(s.hooks.value.pc), ExitLoop]
    && r.0.injectors == s.injectors[tid := []]
    && r.0.hooks == Some(s.hooks.value.(enterOn := false, returnOn := false))
    && r.0.backups == s.backups - {tid} && r.0.child == s.child && r.0.retCell == None
    && r.0.cpu == s.cpu[SYSCALL_RET := last] + saved
  }

  /** Where the run ends from the state after the first exchange is where it ends from before it. */
  lemma FinishedStep(s: State, r: (State, Outcome<()>), tid: ThreadId, last: Word,
                     vs: seq<Word>, cs: seq<HostCall>, v: Word, saved: Regs, rest: Script)
    requires |vs| == |cs| && vs != [] && s.hooks.Some? && tid in s.injectors && s.injectors[tid] != []
    requires RanToEnd(Exchanged(s, tid, vs[0], cs[0].num, rest), r, tid, last, vs[1..], cs[1..], v, saved)
    ensures RanToEnd(s, r, tid, last, vs, cs, v, saved)
  {
    var pc := s.hooks.value.pc;
    var x := Exchanged(s, tid, vs[0], cs[0].num, rest);
    assert x.trace + ExchangeTrace(pc, vs[1..], cs[1..]) == s.trace + ExchangeTrace(pc, vs, cs);
    assert x.injectors[tid := []] == s.injectors[tid := []];
    assert x.cpu[SYSCALL_RET := last] == s.cpu[SYSCALL_RET := last];
  }

  /** The last exchange alone, stated as `RanToEnd`. */
  lemma FinishedLast(s: State, tid: ThreadId, asid: Word, n: Word, k: nat, v: Word, saved: Regs)
    requires AwaitingResult(s, tid, asid, n, Locals(k) + [RestoreRegs, ClearBackup]) && !(n == FORK && v == 0)
    requires s.injectors[tid] == [Entry(asid, Injector([AwaitReturn] + (Locals(k) + [RestoreRegs, ClearBackup]), saved))]
    ensures RanToEnd(s, Run(s, ExchangeCalls(tid, asid, [] + [v])), tid, n, [], [], v, saved)
  {
    assert [] + [v] == [v];
    LastExchange(s, tid, asid, n, v, k, saved);
    LastRanToEnd(s, Run(s, ExchangeCalls(tid, asid, [v])), tid, n, v, saved);
  }

  /** The state `LastExchange` ends in is the end `RanToEnd` describes with no exchange before it. */
  lemma LastRanToEnd(s: State, r: (State, Outcome<()>), tid: ThreadId, n: Word, v: Word, saved: Regs)
    requires s.hooks.Some? && SYSCALL_RET in s.cpu && s.cpu[SYSCALL_RET] == n
    requires r == (s.(waiting := false, retCell := None, cpu := s.cpu + saved, backups := s.backups - {tid},
                      injectors := s.injectors[tid := []], hooks := Some(s.hooks.value.(enterOn := false, returnOn := false)),
                      trace := s.trace + [SetPc(s.hooks.value.pc), ExitLoop, Delivered(v), SetPc(s.hooks.value.pc), ExitLoop]), Ok(()))
    ensures RanToEnd(s, r, tid, n, [], [], v, saved)
  {
    var pc := s.hooks.value.pc;
    assert ExchangeTrace(pc, [], []) == [];
    assert s.trace + ExchangeTrace(pc, [], []) == s.trace;
    assert s.cpu[SYSCALL_RET := n] == s.cpu;
  }

  /**
    From a thread waiting on syscall `n` at the single entry of its queue,
    whose computation goes on with the host code and the syscall of each of
    `cs` and then `k` steps of host code before the end of its wrapper: the
    results `vs` and then `v` run it to completion.
   */
  lemma {:induction false} ExchangesToEnd(s: State, tid: ThreadId, asid: Word, n: Word, cs: seq<HostCall>, k: nat,
                                           vs: seq<Word>, v: Word, saved: Regs)
    requires AwaitingResult(s, tid, asid, n, Calls(cs) + (Locals(k) + [RestoreRegs, ClearBackup])) && |vs| == |cs|
    requires s.injectors[tid] == [Entry(asid, Injector([AwaitReturn] + (Calls(cs) + (Locals(k) + [RestoreRegs, ClearBackup])), saved))]
    requires forall i :: 0 <= i < |vs| ==> !(([n] + Nums(cs))[i] == FORK && vs[i] == 0)
    requires !(([n] + Nums(cs))[|cs|] == FORK && v == 0)
    ensures RanToEnd(s, Run(s, ExchangeCalls(tid, asid, vs + [v])), tid, ([n] + Nums(cs))[|cs|], vs, cs, v, saved)
    decreases |vs|
  {
    var rest := Locals(k) + [RestoreRegs, ClearBackup];
    if vs == [] {
      assert Calls([]) + rest == rest;
      assert ([n] + Nums(cs))[|cs|] == n;
      FinishedLast(s, tid, asid, n, k, v, saved);
    } else {
      var c := cs[0];
      var t' := Calls(cs[1..]) + rest;
      assert Calls(cs) + rest == Locals(c.host) + ([Syscall(c.num)] + t');
      assert (vs + [v])[0] == vs[0] && (vs + [v])[1..] == vs[1..] + [v];
      Exchange(s, tid, asid, n, vs[0], c, t', ExchangeCalls(tid, asid, vs[1..] + [v]));
      var x := Exchanged(s, tid, vs[0], c.num, t');
      ExchangedAwaits(s, tid, asid, n, vs[0], c, t');
      NoForkChildLater(n, cs, vs);
      assert x.injectors[tid] == [Entry(asid, Injector([AwaitReturn] + t', saved))];
      ExchangesToEnd(x, tid, asid, c.num, cs[1..], k, vs[1..], v, saved);
      FinishedStep(s, Run(x, ExchangeCalls(tid, asid, vs[1..] + [v])), tid, ([n] + Nums(cs))[|cs|],
                   vs, cs, v, saved, t');
    }
  }

  /**
    From process start: `run_injector` on a computation that, for each of
    `[c] + cs` in order, runs its host code and issues its syscall, and then
    runs `k` more steps of host code; the engine answers the syscalls with the
    results `vs`. The emitted effects are exactly: the first syscall issued;
    then for each result but the last its replay, its delivery, the next
    syscall issued and its replay; then the replay of the last result, its
    delivery and a final replay. Afterwards the queue is empty, both callbacks
    are disabled, no backup is left, the fork slot is empty and the registers
    are those of the start.
   */
  lemma SyscallsInOrder(cpu: Regs, tid: ThreadId, asid: Word, pc: Word, c: HostCall, cs: seq<HostCall>, k: nat,
                        vs: seq<Word>)
    requires |vs| == |cs| + 1
    requires forall i :: 0 <= i < |vs| ==> !(([c.num] + Nums(cs))[i] == FORK && vs[i] == 0)
    ensures var r := Run(Initial(cpu), [RunInjectorCall(tid, asid, pc, Calls([c] + cs) + Locals(k))] +
                                       ExchangeCalls(tid, asid, vs));
      && r.1 == Ok(())
      && r.0.trace == [Issue(c.num)] + ExchangeTrace(pc, vs[..|cs|], cs) +
                      [SetPc(pc), ExitLoop, Delivered(vs[|cs|]), SetPc(pc), ExitLoop]
      && r.0.injectors == map[tid := []]
      && r.0.hooks == Some(Hooks(pc, false, false))
      && r.0.backups == map[] && r.0.child == None && r.0.retCell == None
      && (SYSCALL_RET in cpu ==> r.0.cpu == cpu)
  {
    var rest := Locals(k) + [RestoreRegs, ClearBackup];
    var user := Calls([c] + cs) + Locals(k);
    CallsCons(c, cs, k);
    FirstCall(cpu, tid, asid, pc, c, Calls(cs) + Locals(k));
    var t := FirstIssued(cpu, tid, asid, pc, c.num, Calls(cs) + rest);
    var later := ExchangeCalls(tid, asid, vs);
    FromFirstIssue(cpu, tid, asid, pc, t, c.num, cs, k, vs);
    Chain(Initial(cpu), RunInjectorCall(tid, asid, pc, user), later, t, Run(t, later));
  }

  /** The script of `[c] + cs` and `k` more host steps, split after the syscall of `c`. */
  lemma CallsCons(c: HostCall, cs: seq<HostCall>, k: nat)
    ensures Calls([c] + cs) + Locals(k) == Locals(c.host) + ([Syscall(c.num)] + (Calls(cs) + Locals(k)))
    ensures Calls(cs) + Locals(k) + [RestoreRegs, ClearBackup] == Calls(cs) + (Locals(k) + [RestoreRegs, ClearBackup])
  {
    assert ([c] + cs)[0] == c && ([c] + cs)[1..] == cs;
  }

  /** The exchanges from the state after the first `run_injector` of the process, to the end. */
  lemma FromFirstIssue(cpu: Regs, tid: ThreadId, asid: Word, pc: Word, t: State, n: Word, cs: seq<HostCall>,
                       k: nat, vs: seq<Word>)
    requires |vs| == |cs| + 1
    requires forall i :: 0 <= i < |vs| ==> !(([n] + Nums(cs))[i] == FORK && vs[i] == 0)
    requires AwaitingResult(t, tid, asid, n, Calls(cs) + (Locals(k) + [RestoreRegs, ClearBackup]))
    requires t.trace == [Issue(n)] && t.backups == map[tid := cpu] && t.child == None
    requires t.hooks == Some(Hooks(pc, true, true)) && t.cpu == cpu[SYSCALL_RET := n]
    requires t.injectors == map[tid := [Entry(asid, Injector([AwaitReturn] + (Calls(cs) + (Locals(k) + [RestoreRegs, ClearBackup])), cpu))]]
    ensures var r := Run(t, ExchangeCalls(tid, asid, vs));
      && r.1 == Ok(())
      && r.0.trace == [Issue(n)] + ExchangeTrace(pc, vs[..|cs|], cs) +
                      [SetPc(pc), ExitLoop, Delivered(vs[|cs|]), SetPc(pc), ExitLoop]
      && r.0.injectors == map[tid := []]
      && r.0.hooks == Some(Hooks(pc, false, false))
      && r.0.backups == map[] && r.0.child == None && r.0.retCell == None
      && (SYSCALL_RET in cpu ==> r.0.cpu == cpu)
  {
    var ws := vs[..|cs|];
    assert vs == ws + [vs[|cs|]];
    assert forall i :: 0 <= i < |ws| ==> ws[i] == vs[i];
    ExchangesToEnd(t, tid, asid, n, cs, k, ws, vs[|cs|], cpu);
    FinishedFromStart(cpu, tid, asid, pc, t, Run(t, ExchangeCalls(tid, asid, vs)), n,
                      ([n] + Nums(cs))[|cs|], ws, cs, vs[|cs|]);
  }

  /** What `RanToEnd` says about a run from the state after the first `run_injector` of the process. */
  lemma FinishedFromStart(cpu: Regs, tid: ThreadId, asid: Word, pc: Word, t: State, r: (State, Outcome<()>),
                          n: Word, last: Word, vs: seq<Word>, cs: seq<HostCall>, v: Word)
    requires |vs| == |cs|
    requires t.trace == [Issue(n)] && t.backups == map[tid := cpu] && t.child == None
    requires t.hooks == Some(Hooks(pc, true, true)) && t.cpu == cpu[SYSCALL_RET := n]
    requires t.injectors.Keys == {tid}
    requires RanToEnd(t, r, tid, last, vs, cs, v, cpu)
    ensures r.1 == Ok(())
    ensures r.0.trace == [Issue(n)] + ExchangeTrace(pc, vs, cs) + [SetPc(pc), ExitLoop, Delivered(v), SetPc(pc), ExitLoop]
    ensures r.0.injectors == map[tid := []]
    ensures r.0.hooks == Some(Hooks(pc, false, false))
    ensures r.0.backups == map[] && r.0.child == None && r.0.retCell == None
    ensures SYSCALL_RET in cpu ==> r.0.cpu == cpu
  {
    assert map[tid := cpu] - {tid} == map[];
    assert t.injectors[tid := []] == map[tid := []];
    if SYSCALL_RET in cpu {
      RestoreOverRax(cpu, n, last);
    }
  }
}
