/**
 Theorems about a single kernel entry: where threads may be, which thread runs
 afterwards, when the nesting counter and the scheduling flags are at rest.
 */
module SchedulerSteps {
  import opened Common
  import opened Lists
  import opened Scheduler
  import opened SchedulerInvariant

  /** At a rest point every thread is exactly one of running, ready and waiting. */
  ghost predicate ExactlyOnePlace(s: State) {
    && Distinct(s.ready) && Distinct(s.waiting)
    && forall t :: t in s.threads ==>
      && !(t in s.ready && t in s.waiting)
      && (t in s.ready || t in s.waiting <==> !(s.mode == User && t == s.running))
  }

  lemma InvMeansOnePlace(s: State)
    requires Inv(s)
    ensures ExactlyOnePlace(s)
  {}

  /** The runner in both queues: whichever thread is dispatched, one thread has two places. */
  lemma TwicePlaced(s: State)
    requires Closed(s) && s.running in s.ready && s.running in s.waiting && s.needSwitch && s.reenter == 0
    ensures forall frame :: !ExactlyOnePlace(Dispatch(s, frame))
  {
    forall frame ensures !ExactlyOnePlace(Dispatch(s, frame)) {
      var r := Dispatch(s, frame);
      var i :| 0 <= i < |s.ready| && s.ready[i] == s.running;
      if i > 0 { assert s.ready[1..][i - 1] == s.running; }
      assert s.running in r.threads && s.running in r.waiting;
    }
  }

  lemma InsertHas(q: seq<Tid>, k: nat, t: Tid)
    requires k <= |q|
    ensures t in Insert(q, k, t) && forall x :: x in q ==> x in Insert(q, k, t)
  {
    assert Insert(q, k, t)[k] == t;
    forall x | x in q ensures x in Insert(q, k, t) {
      var i :| 0 <= i < |q| && q[i] == x;
      assert Insert(q, k, t)[if i < k then i else i + 1] == x;
    }
  }

  lemma DoubleLinkBreaks(s: State, flags: Signals, frame: Context)
    requires Inv(s) && s.mode == User && DoubleLink(s, Trap(Wait(flags)))
    ensures !ExactlyOnePlace(Step(s, Trap(Wait(flags)), frame))
  {
    var s1 := WaitForFlags(EnterKernel(s), flags).(needSchedule := false);
    InsertHas(s.waiting, Slot(Priorities(s.threads, s.waiting), Running(s).pri), s.running);
    InsertHas(s.ready, Slot(Priorities(s1.threads, s.ready), Running(s1).pri), s.running);
    TwicePlaced(Schedule(s1));
  }

  /**
   The places of the threads survive an event if and only if it is not a wait() made
   while a reschedule is pending that would preempt the caller.
   */
  lemma OnePlaceIff(s: State, ev: Event, frame: Context)
    requires Inv(s) && EventOk(s, ev)
    ensures ExactlyOnePlace(Step(s, ev, frame)) <==> !DoubleLink(s, ev)
  {
    if DoubleLink(s, ev) {
      DoubleLinkBreaks(s, ev.call.flags, frame);
    } else {
      StepInv(s, ev, frame);
      InvMeansOnePlace(Step(s, ev, frame));
    }
  }

  // ----- the boundary between user mode and the kernel

  ghost predicate Entry(ev: Event) {
    ev.Interrupt? || ev.Trap?
  }

  /** schedule() touches the ready queue and two flags only. */
  lemma ScheduleShape(s: State)
    requires Closed(s)
    ensures var r := ScheduleIfNeeded(s);
      r == s.(ready := r.ready, needSwitch := r.needSwitch, needSchedule := r.needSchedule)
    ensures s.reenter == 0 ==> !ScheduleIfNeeded(s).needSchedule
    ensures !s.needSchedule || s.forbid > 0 ==> ScheduleIfNeeded(s) == s.(needSchedule := ScheduleIfNeeded(s).needSchedule)
  {
    hide Enqueued;
  }

  /** What dispatching leaves alone, and where it ends when it starts from user mode at depth one. */
  lemma DispatchShape(s: State, frame: Context)
    requires Closed(s)
    ensures var r := Dispatch(s, frame);
      && r.waiting == s.waiting && r.forbid == s.forbid
      && (!s.needSwitch ==> r == LeaveKernel(s.(cpu := frame)))
      && (s.reenter == 0 && s.mode == User ==> r.reenter == if r.mode == User then WORDS - 1 else 0)
      && (s.mode == User && r.mode == User ==> r.needSchedule == s.needSchedule)
  {
    hide Known;
  }

  lemma ExitShape(s: State, frame: Context)
    requires Closed(s)
    ensures var r := ExitKernel(s, frame);
      && r.waiting == s.waiting && r.forbid == s.forbid
      && (s.reenter == 0 && s.mode == User ==> r.reenter == if r.mode == User then WORDS - 1 else 0)
      && (s.reenter == 0 && s.mode == User && r.mode == User ==> !r.needSchedule)
      && (!s.needSwitch && (!s.needSchedule || s.forbid > 0) ==> r.running == s.running && r.mode == s.mode && r.ready == s.ready)
  {
    hide ScheduleIfNeeded, Dispatch, Closed;
    ScheduleShape(s);
    DispatchShape(ScheduleIfNeeded(s), frame);
  }

  lemma ExitClearsSchedule(s: State, frame: Context)
    requires Closed(s) && s.reenter == 0 && s.mode == User
    ensures var r := ExitKernel(s, frame); r.mode == User ==> !r.needSchedule
  {
    hide ExitKernel;
    ExitShape(s, frame);
  }

  lemma SwitchInKeepsSchedule(s: State)
    requires Closed(s)
    ensures s.needSchedule ==> SwitchIn(s).needSchedule
  {}

  /** In user mode a reschedule is pending exactly when the last dispatch idled. */
  lemma PendingMeansIdled(s: State, ev: Event, frame: Context)
    requires Inv(s) && EventOk(s, ev) && Entry(ev)
    ensures var r := Step(s, ev, frame); r.mode == User ==> (r.needSchedule <==> s.mode == Halted)
  {
    if s.mode == Halted {
      WakeIs(s, ev.irq);
      IrqKeepsSchedule(s, ev.irq);
      SwitchInKeepsSchedule(HandleIrq(s, ev.irq));
    } else {
      match ev
      case Interrupt(irq) =>
        IrqFrame(EnterKernel(s), irq, 0);
        ExitClearsSchedule(HandleIrq(EnterKernel(s), irq), frame);
      case Trap(call) =>
        ExitClearsSchedule(HandleTrap(EnterKernel(s), call), frame);
    }
  }

  lemma IrqKeepsSchedule(s: State, irq: Irq)
    requires Closed(s) && EventOk(s, Interrupt(irq))
    ensures s.needSchedule ==> HandleIrq(s, irq).needSchedule
  {
    if irq.Key? { PostFrame(s, irq.target, irq.data); }
  }

  /**
   The nesting counter is the number of kernel entries in progress less one, modulo 2^32:
   none in user mode, one in the idle loop, and one more while a nested interrupt runs.
   */
  lemma NestingDepth(s: State, ev: Event)
    requires Inv(s) && EventOk(s, ev) && Entry(ev)
    ensures ev.Interrupt? ==> HandleIrq(EnterKernel(s), ev.irq).reenter == if s.mode == User then 0 else 1
    ensures ev.Trap? ==> HandleTrap(EnterKernel(s), ev.call).reenter == 0
    ensures forall frame :: var r := Step(s, ev, frame);
      r.reenter == if r.mode == User then WORDS - 1 else 0
  {
    hide ExitKernel, HandleIrq, SystemCall, Wake, Places, Sorted, Flags, RunFlag;
    if ev.Interrupt? {
      IrqFrame(s, ev.irq, if s.mode == User then 0 else 1);
    } else {
      CallFrame(EnterKernel(s), ev.call);
    }
    forall frame ensures var r := Step(s, ev, frame); r.reenter == if r.mode == User then WORDS - 1 else 0 {
      if ev.Interrupt? {
        StepInv(s, ev, frame);
      } else {
        ExitShape(HandleTrap(EnterKernel(s), ev.call), frame);
      }
    }
  }

  /** System calls change neither depth, mode, runner nor the forbid counter. */
  lemma CallFrame(s: State, call: Syscall)
    requires Closed(s)
    ensures var r := SystemCall(s, call);
      && r.reenter == s.reenter && r.mode == s.mode && r.running == s.running && r.forbid == s.forbid
      && (r.needSwitch ==> s.needSwitch || call.Wait?)
  {
    hide Enqueued;
  }

  /** While multitasking is forbidden, only its own wait() takes the processor from the runner. */
  lemma ForbidKeepsRunner(s: State, ev: Event, frame: Context)
    requires Inv(s) && EventOk(s, ev) && s.mode == User && s.forbid > 0
    requires !(ev.Trap? && ev.call.Wait? && Running(s).uid == 0)
    ensures var r := Step(s, ev, frame); r.running == s.running && r.mode == User
  {
    hide Places, Sorted, RunFlag, Flags, HandleIrq, SystemCall, ExitKernel;
    var s0 := EnterKernel(s);
    if ev.Interrupt? {
      IrqFrame(s0, ev.irq, 0);
      ExitShape(HandleIrq(s0, ev.irq), frame);
    } else if ev.Trap? {
      CallFrame(s0, ev.call);
      ExitShape(HandleTrap(s0, ev.call), frame);
    }
  }

  // ----- the highest priority thread runs

  ghost predicate HighestRuns(s: State)
    requires Closed(s)
  {
    s.mode == User ==> forall t :: t in s.ready ==> s.threads[t].pri <= Running(s).pri
  }

  /** The head of a sorted queue has the highest priority. */
  lemma HeadIsMax(ths: map<Tid, Thread>, q: seq<Tid>)
    requires Sorted(ths, q) && q != []
    ensures q[0] in q && q[0] in ths && forall t :: t in q ==> t in ths && ths[t].pri <= ths[q[0]].pri
  {
    var ps := Priorities(ths, q);
    forall t | t in q ensures t in ths && ths[t].pri <= ths[q[0]].pri {
      var i :| 0 <= i < |q| && q[i] == t;
      assert ps[0] >= ps[i];
    }
    assert ps[0] == ths[q[0]].pri;
  }

  lemma ResumeHighest(s: State)
    requires Core(s, true) && s.ready != []
    ensures HighestRuns(Resume(s))
  {
    var r := Resume(s);
    HeadIsMax(s.threads, s.ready);
    forall t | t in r.ready ensures r.threads[t].pri <= Running(r).pri {
      assert t in s.ready;
    }
  }

  lemma DispatchHighest(s: State, frame: Context)
    requires Core(s, s.needSwitch) && RunFlag(s.threads, s.running, true) && s.reenter == 0 && s.mode == User
    requires s.needSwitch || HighestRuns(s)
    ensures HighestRuns(Dispatch(s, frame))
  {
    if s.needSwitch {
      SwitchOutCore(s, frame);
      var s1 := SwitchOut(s, frame);
      if s1.ready != [] { ResumeHighest(s1); }
    }
  }

  /** schedule() leaves the runner on the processor only if nobody ready beats it. */
  lemma ScheduleHighest(s: State)
    requires Core(s, false) && !s.needSwitch && s.forbid <= 0 && s.mode == User
    ensures var r := Schedule(s); Core(r, r.needSwitch) && (r.needSwitch || HighestRuns(r))
  {
    ScheduleCore(s);
    if s.ready != [] { HeadIsMax(s.threads, s.ready); }
  }

  lemma ExitHighest(s: State, frame: Context)
    requires Core(s, s.needSwitch) && RunFlag(s.threads, s.running, true) && s.reenter == 0 && s.mode == User
    requires s.needSwitch && s.needSchedule ==> !Running(s).signal && !Preempts(s)
    requires s.needSwitch || (s.needSchedule && s.forbid <= 0) || HighestRuns(s)
    ensures HighestRuns(ExitKernel(s, frame))
  {
    var s1 := ScheduleIfNeeded(s);
    assert Core(s1, s1.needSwitch) && (s1.needSwitch || HighestRuns(s1)) by {
      if s.needSchedule && !s.needSwitch {
        var s0 := s.(needSchedule := false);
        if s.forbid <= 0 { ScheduleHighest(s0); } else { ScheduleCore(s0); }
      }
    }
    DispatchHighest(s1, frame);
  }

  /**
   Every kernel entry with multitasking permitted returns to user mode with a runner
   whose priority no ready thread exceeds.
   */
  lemma HighestPriorityRuns(s: State, ev: Event, frame: Context)
    requires Inv(s) && EventOk(s, ev) && Entry(ev) && !DoubleLink(s, ev)
    requires s.forbid <= 0 && HighestRuns(s)
    ensures HighestRuns(Step(s, ev, frame))
  {
    if s.mode == Halted {
      WakeIs(s, ev.irq);
      IrqCore(s, ev.irq, true, false);
      var h := HandleIrq(s, ev.irq);
      if h.ready != [] { ResumeHighest(h); }
    } else {
      match ev
      case Interrupt(irq) => InterruptHighest(s, irq, frame);
      case Trap(call) => TrapHighest(s, call, frame);
    }
  }

  lemma InterruptHighest(s: State, irq: Irq, frame: Context)
    requires Inv(s) && s.mode == User && EventOk(s, Interrupt(irq)) && s.forbid <= 0 && HighestRuns(s)
    ensures HighestRuns(Step(s, Interrupt(irq), frame))
  {
    var s0 := EnterKernel(s);
    var h := HandleIrq(s0, irq);
    IrqCore(s0, irq, false, true);
    assert h.needSchedule || HighestRuns(h) by { QuietIrq(s0, irq); }
    ExitHighest(h, frame);
  }

  /** A handler that asks for no reschedule has readied nobody. */
  lemma QuietIrq(s: State, irq: Irq)
    requires Core(s, false) && (irq.Key? ==> irq.target in s.threads)
    ensures var h := HandleIrq(s, irq);
      !h.needSchedule ==> h.ready == s.ready && h.waiting == s.waiting
                          && forall t :: t in s.threads ==> h.threads[t].pri == s.threads[t].pri
  {
    hide Post, Places, Sorted, Flags, Posted;
    if irq.Key? {
      PostFrame(s, irq.target, irq.data);
      PostQuiet(s, irq.target, irq.data);
    }
  }

  lemma PostQuiet(s: State, t: Tid, data: Message)
    requires Closed(s) && t in s.threads
    ensures var r := Post(s, t, data); !r.needSchedule ==> r.ready == s.ready && r.waiting == s.waiting
  {
    hide MakeReady;
    if |data| <= MAX_MSG_SZ {
      var s1 := AppendMessage(s, t, data);
      MakeReadyFrame(s1, t, {ST_MESG});
    }
  }

  lemma TrapHighest(s: State, call: Syscall, frame: Context)
    requires Inv(s) && s.mode == User && !DoubleLink(s, Trap(call)) && s.forbid <= 0 && HighestRuns(s)
    ensures HighestRuns(Step(s, Trap(call), frame))
  {
    var s0 := EnterKernel(s);
    assert Core(s0, false) && Running(s0) == Running(s) && (Preempts(s0) <==> Preempts(s)) && HighestRuns(s0);
    if Running(s).uid == 0 {
      SystemCallCore(s0, call);
      var h := SystemCall(s0, call);
      assert h.needSwitch || (h.ready == s0.ready && HighestRuns(h));
      ExitHighest(h, frame);
    } else {
      ExitHighest(s0, frame);
    }
  }

  /** A new thread leaves the runner on top if and only if its priority is at most the runner's. */
  lemma CreateHighest(s: State, t: Tid, pri: int, uid: nat, frame: Context)
    requires Inv(s) && EventOk(s, Create(t, pri, uid)) && HighestRuns(s)
    ensures HighestRuns(Step(s, Create(t, pri, uid), frame)) <==> pri <= Running(s).pri
  {
    var r := Step(s, Create(t, pri, uid), frame);
    InsertHas(s.ready, Slot(Priorities(r.threads, s.ready), pri), t);
    CreatedReady(s, t, pri, uid);
  }

  lemma CreatedReady(s: State, t: Tid, pri: int, uid: nat)
    requires Inv(s) && t !in s.threads
    ensures forall x :: x in CreateThread(s, t, pri, uid).ready <==> x == t || x in s.ready
  {
    var ths := CreateThread(s, t, pri, uid).threads;
    SortedFrame(s.threads, ths, s.ready);
    EnqueuedFacts(ths, s.ready, t);
  }

  /** An entry that finds a reschedule pending re-establishes it from any state. */
  lemma RescheduleRestoresHighest(s: State, irq: Irq, frame: Context)
    requires Inv(s) && s.mode == User && EventOk(s, Interrupt(irq)) && s.forbid <= 0
    requires HandleIrq(EnterKernel(s), irq).needSchedule
    ensures HighestRuns(Step(s, Interrupt(irq), frame))
  {
    hide Places, Sorted, Flags, RunFlag, HandleIrq, ExitKernel, HighestRuns;
    IrqCore(EnterKernel(s), irq, false, true);
    ExitHighest(HandleIrq(EnterKernel(s), irq), frame);
  }

  // ----- quanta

  ghost function Ticks(s: State, n: nat): (r: State)
    requires Closed(s)
    ensures Closed(r)
  {
    if n == 0 then s else TimerCallback(Ticks(s, n - 1))
  }

  /** Tick `n` after state `s` asks for an end-of-quantum reschedule. */
  ghost predicate ExpiresAt(s: State, n: nat)
    requires Closed(s) && n > 0
  {
    TimerCallback(Ticks(s, n - 1).(expired := false)).expired
  }

  /** A quantum of q lasts q ticks; the two ticks after it, and no others, request its end. */
  lemma {:induction false} QuantumCount(s: State, n: nat)
    requires Closed(s) && s.count >= 0
    ensures Ticks(s, n).count == if s.count - n > -2 then s.count - n else -2
    ensures n > 0 ==> (ExpiresAt(s, n) <==> n == s.count + 1 || n == s.count + 2)
  {
    if n > 0 { QuantumCount(s, n - 1); }
  }

  /** An expired runner goes in front of its equals, so it is the head that is dispatched next. */
  lemma PreemptedReturns(s: State, frame: Context)
    requires Core(s, false) && RunFlag(s.threads, s.running, true) && s.mode == User && s.reenter == 0
    requires s.ready != [] && HighestRuns(s)
    ensures var r := Dispatch(s.(ready := Enqueued(s.threads, s.ready, s.running), needSwitch := true), frame);
      && r.running == s.running && r.mode == User && r.ready == s.ready && r.waiting == s.waiting
      && r.count == s.quantum && r.cpu == frame && !r.expired
  {
    HeadIsMax(s.threads, s.ready);
    SlotUnique(Priorities(s.threads, s.ready), Running(s).pri, 0);
    var q := Enqueued(s.threads, s.ready, s.running);
    assert q == [s.running] + s.ready && q[1..] == s.ready;
  }

  /** Leaving a handler that readied nobody above the runner: the runner goes on. */
  lemma RunnerGoesOn(h: State, frame: Context)
    requires Core(h, false) && RunFlag(h.threads, h.running, true) && h.mode == User && h.reenter == 0
    requires !h.needSwitch && HighestRuns(h)
    ensures var r := ExitKernel(h, frame);
      && r.running == h.running && r.mode == User && r.ready == h.ready && r.waiting == h.waiting && r.cpu == frame
    ensures h.needSchedule && h.expired && h.forbid <= 0 && h.ready != [] ==>
      var r := ExitKernel(h, frame); r.count == h.quantum && !r.expired
  {
    var s0 := h.(needSchedule := false);
    if h.needSchedule && h.forbid <= 0 && h.ready != [] {
      assert Running(s0).pri >= s0.threads[s0.ready[0]].pri by { HeadIsMax(h.threads, h.ready); }
      if h.expired {
        assert ScheduleIfNeeded(h) == s0.(ready := Enqueued(s0.threads, s0.ready, s0.running), needSwitch := true);
        PreemptedReturns(s0, frame);
      } else {
        assert ScheduleIfNeeded(h) == s0;
      }
    }
  }

  /**
   Ticks alone never rotate threads: whatever the quantum and however many threads of the
   same priority are ready, the runner is dispatched again and the ready queue keeps its order.
   */
  lemma TickKeepsRunner(s: State, frame: Context)
    requires Inv(s) && s.mode == User && HighestRuns(s)
    ensures var r := Step(s, Interrupt(Timer), frame);
      && r.running == s.running && r.mode == User && r.ready == s.ready && r.waiting == s.waiting
      && r.cpu == frame && HighestRuns(r)
    ensures -1 <= s.count <= 0 && s.ready != [] && s.forbid <= 0 ==>
      var r := Step(s, Interrupt(Timer), frame); r.count == s.quantum && !r.expired
  {
    hide Places, Sorted, Flags, ExitKernel;
    var h := HandleIrq(EnterKernel(s), Timer);
    RunnerGoesOn(h, frame);
    assert HighestRuns(ExitKernel(h, frame)) by { ExitKeepsMail(h, frame); }
  }

  /** Dispatching touches nothing of a thread but its processor state. */
  ghost predicate SameButProcessor(a: Thread, b: Thread) {
    b == a.(run := b.run, launch := b.launch, signal := b.signal, kernelEsp := b.kernelEsp)
  }

  ghost predicate SameMail(s: State, r: State) {
    r.threads.Keys == s.threads.Keys && forall t :: t in s.threads ==> SameButProcessor(s.threads[t], r.threads[t])
  }

  lemma ExitKeepsMail(s: State, frame: Context)
    requires Closed(s)
    ensures SameMail(s, ExitKernel(s, frame))
  {
    hide ScheduleIfNeeded, SwitchIn, SwitchOut, SameButProcessor, Closed;
    ScheduleShape(s);
    var s1 := ScheduleIfNeeded(s);
    SameMailSelf(s1);
    SwitchOutKeepsMail(s1, frame);
    SwitchInKeepsMail(SwitchOut(s1, frame));
    SameMailThen(s1, SwitchOut(s1, frame), SwitchIn(SwitchOut(s1, frame)));
  }

  lemma SameMailSelf(s: State)
    ensures SameMail(s, s)
  {}

  lemma SameMailThen(s: State, u: State, r: State)
    requires SameMail(s, u) && SameMail(u, r)
    ensures SameMail(s, r)
  {}

  lemma SwitchOutKeepsMail(s: State, frame: Context)
    requires Closed(s)
    ensures SameMail(s, SwitchOut(s, frame))
  {}

  lemma SwitchInKeepsMail(s: State)
    requires Closed(s)
    ensures SameMail(s, SwitchIn(s))
  {
    hide Restore, TakeHead, SameButProcessor, Known;
    SameMailSelf(s);
    if s.ready != [] {
      TakeHeadKeepsMail(s);
      RestoreKeepsMail(TakeHead(s));
      SameMailThen(s, TakeHead(s), Restore(TakeHead(s)));
    }
  }

  lemma TakeHeadKeepsMail(s: State)
    requires Closed(s) && s.ready != []
    ensures SameMail(s, TakeHead(s))
  {}

  lemma RestoreKeepsMail(s: State)
    requires Closed(s)
    ensures SameMail(s, Restore(s))
  {}

  lemma {:induction false} TicksNeverRotate(s: State, n: nat, frame: Context)
    requires Inv(s) && s.mode == User && HighestRuns(s)
    ensures var r := TickSteps(s, n, frame);
      Inv(r) && r.mode == User && r.running == s.running && r.ready == s.ready && HighestRuns(r)
  {
    hide Step, Places, Sorted, Flags, RunFlag, Rest;
    if n > 0 {
      TicksNeverRotate(s, n - 1, frame);
      var p := TickSteps(s, n - 1, frame);
      var r := Step(p, Interrupt(Timer), frame);
      assert r.mode == User && r.running == s.running && r.ready == s.ready && HighestRuns(r) by {
        TickKeepsRunner(p, frame);
      }
      assert Inv(r) by { StepInv(p, Interrupt(Timer), frame); }
      assert TickSteps(s, n, frame) == r;
    }
  }

  ghost function TickSteps(s: State, n: nat, frame: Context): (r: State)
    requires Closed(s)
    ensures Closed(r)
  {
    if n == 0 then s else Step(TickSteps(s, n - 1, frame), Interrupt(Timer), frame)
  }
}
