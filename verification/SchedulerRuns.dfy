/**
 What holds over whole runs, from boot through any interleaving of interrupts, nested
 interrupts, system calls and thread creation, when threads block as msg_retrieve() does:
 a wait for ST_MESG follows an empty retrieve, and a retrieve follows the wait.

 A history beside the state records what was posted to and cycled from each port, the
 frame each thread last entered the kernel with, and the progress of each msg_retrieve().
 */
module SchedulerRuns {
  import opened Common
  import opened Lists
  import opened Scheduler
  import opened SchedulerInvariant
  import opened SchedulerSteps

  /** Where a thread is in msg_retrieve(): elsewhere, after an empty retrieve, or in or after its wait. */
  datatype Progress = Elsewhere | Empty | Waited

  datatype History = History(
    last: map<Tid, Context>,
    posted: map<Tid, seq<Message>>,
    cycled: map<Tid, seq<Message>>,
    progress: map<Tid, Progress>,
    raced: set<Tid>)

  datatype Machine = Machine(s: State, h: History)

  datatype Call = Call(ev: Event, frame: nat)

  const STD_TS_QUANTUM := 10

  /** The state in which init() enters user mode, before its first create_thread(). */
  ghost function Boot(kernel: Tid): Machine {
    Machine(
      State(false, false, false, WORDS - 1, kernel, Frame(0), User, [], [], STD_TS_QUANTUM, STD_TS_QUANTUM, 1,
            map[kernel := Thread(0, 0, true, false, false, false, false, {}, {}, Nowhere, [], 0)]),
      History(map[kernel := Frame(0)], map[kernel := []], map[kernel := []], map[kernel := Elsewhere], {}))
  }

  ghost predicate Tracked(m: Machine) {
    && Closed(m.s)
    && m.h.posted.Keys == m.s.threads.Keys && m.h.cycled.Keys == m.s.threads.Keys
    && m.h.progress.Keys == m.s.threads.Keys
  }

  /** Threads with uid 0 block only through the loop of msg_retrieve(). */
  ghost predicate Disciplined(m: Machine, ev: Event)
    requires Tracked(m)
  {
    ev.Trap? && Running(m.s).uid == 0 ==>
      match m.h.progress[m.s.running]
      case Elsewhere => !ev.call.Wait?
      case Empty => ev.call == Wait({ST_MESG})
      case Waited => ev.call.Retrieve?
  }

  ghost function ObserveCall(m: Machine, call: Syscall): History
    requires Tracked(m)
  {
    var t, h := m.s.running, m.h;
    var port := m.s.threads[t].port;
    if Running(m.s).uid != 0 then h
    else
      match call
      case Retrieve => h.(progress := h.progress[t := if port == [] then Empty else Elsewhere], raced := h.raced - {t})
      case Wait(_) => h.(progress := h.progress[t := Waited])
      case Cycle => if port == [] then h else h.(cycled := h.cycled[t := h.cycled[t] + [port[0]]])
      case _ => h
  }

  ghost function ObserveIrq(m: Machine, irq: Irq): History
    requires Tracked(m) && (irq.Key? ==> irq.target in m.s.threads)
  {
    if irq.Key? && |irq.data| <= MAX_MSG_SZ then
      var t := irq.target;
      m.h.(posted := m.h.posted[t := m.h.posted[t] + [irq.data]],
           raced := if m.h.progress[t] == Empty then m.h.raced + {t} else m.h.raced)
    else m.h
  }

  ghost function ObserveEvent(m: Machine, ev: Event): History
    requires Tracked(m) && EventOk(m.s, ev)
  {
    match ev
    case Create(t, _, _) =>
      m.h.(posted := m.h.posted[t := []], cycled := m.h.cycled[t := []], progress := m.h.progress[t := Elsewhere])
    case Interrupt(irq) => ObserveIrq(m, irq)
    case Trap(call) => ObserveCall(m, call)
    case Forbid => m.h
    case Permit => m.h
  }

  /** Leaving user mode, the runner leaves its frame on its kernel stack. */
  ghost function Observe(m: Machine, ev: Event, frame: nat): History
    requires Tracked(m) && EventOk(m.s, ev)
  {
    var h := ObserveEvent(m, ev);
    if SchedulerSteps.Entry(ev) && m.s.mode == User then h.(last := m.h.last[m.s.running := Frame(frame)]) else h
  }

  ghost function Advance(m: Machine, c: Call): (r: Machine)
    requires Tracked(m) && EventOk(m.s, c.ev)
  {
    Machine(Step(m.s, c.ev, Frame(c.frame)), Observe(m, c.ev, c.frame))
  }

  // ----- the invariants of a run

  /** Everything posted to a port is, in order, what was cycled from it and what it holds. */
  ghost predicate PortOk(m: Machine, t: Tid)
    requires Tracked(m) && t in m.s.threads
  {
    && m.h.posted[t] == m.h.cycled[t] + m.s.threads[t].port
    && m.s.threads[t].numMsg == |m.h.posted[t]| % 256
  }

  ghost predicate PortsConserve(m: Machine)
    requires Tracked(m)
  {
    forall t :: t in m.s.threads ==> PortOk(m, t)
  }

  /** A thread off the processor holds the frame of its last entry, or is still to be launched. */
  ghost predicate ContextOk(th: Thread, last: map<Tid, Context>, t: Tid) {
    (th.launch <==> t !in last) && (t in last ==> th.kernelEsp == last[t])
  }

  ghost function ResumePoint(last: map<Tid, Context>, t: Tid): Context {
    if t in last then last[t] else Entry(t)
  }

  ghost predicate SavedOffProcessor(s: State, last: map<Tid, Context>) {
    forall t :: t in s.threads && !(s.mode == User && t == s.running) ==> ContextOk(s.threads[t], last, t)
  }

  ghost predicate ContextsKept(m: Machine)
    requires Tracked(m)
  {
    && SavedOffProcessor(m.s, m.h.last)
    && (m.s.mode == User ==> m.s.cpu == ResumePoint(m.h.last, m.s.running))
    && m.h.last.Keys <= m.s.threads.Keys
  }

  /** Blocked threads wait for a message, others for nothing. */
  ghost predicate BlockedForMail(th: Thread, waits: bool, p: Progress) {
    th.sigWait == (if waits then {ST_MESG} else {}) && (waits ==> p == Waited)
  }

  ghost predicate BlocksForMail(m: Machine)
    requires Tracked(m)
  {
    forall t :: t in m.s.threads ==> BlockedForMail(m.s.threads[t], t in m.s.waiting, m.h.progress[t])
  }

  /** A reschedule pending in user mode means that the runner comes out of its wait. */
  ghost predicate PendingAfterWait(m: Machine)
    requires Tracked(m)
  {
    m.s.mode == User && m.s.needSchedule ==> m.h.progress[m.s.running] == Waited
  }

  /** A thread that found its port empty finds it non-empty later exactly if a post raced with its wait. */
  ghost predicate RaceKnown(th: Thread, waits: bool, p: Progress, raced: bool) {
    waits || p == Empty ==> (th.port != [] <==> raced)
  }

  ghost predicate RacesKnown(m: Machine)
    requires Tracked(m)
  {
    forall t :: t in m.s.threads ==>
      RaceKnown(m.s.threads[t], t in m.s.waiting, m.h.progress[t], t in m.h.raced)
  }

  ghost predicate Good(m: Machine) {
    && Tracked(m) && Inv(m.s)
    && PortsConserve(m) && ContextsKept(m) && BlocksForMail(m) && PendingAfterWait(m) && RacesKnown(m)
  }

  // ----- one step, handler and exit taken apart

  ghost function Handled(s: State, ev: Event): (r: State)
    requires Closed(s) && EventOk(s, ev) && SchedulerSteps.Entry(ev)
    ensures Keeps(s, r)
  {
    if ev.Interrupt? then HandleIrq(EnterKernel(s), ev.irq) else HandleTrap(EnterKernel(s), ev.call)
  }

  lemma ExitKeepsWaiting(s: State, frame: Context)
    requires Closed(s)
    ensures ExitKernel(s, frame).waiting == s.waiting
  {
    hide ExitKernel;
    ExitShape(s, frame);
  }

  lemma StepIs(s: State, ev: Event, frame: Context)
    requires Inv(s) && EventOk(s, ev) && SchedulerSteps.Entry(ev)
    ensures var h := Handled(s, ev);
      Step(s, ev, frame) == if s.mode == User then ExitKernel(h, frame) else SwitchIn(h.(reenter := 0, cpu := s.cpu))
  {
    if s.mode == Halted {
      IrqFrame(s, ev.irq, 1);
      assert EnterKernel(s) == s.(reenter := 1);
      var h := HandleIrq(EnterKernel(s), ev.irq);
      assert ExitKernel(h, s.cpu) == h.(reenter := 0, cpu := s.cpu) by { NestedExit(h, s.cpu); }
    }
  }

  lemma StepKeepsMail(s: State, ev: Event, frame: Context)
    requires Inv(s) && EventOk(s, ev) && SchedulerSteps.Entry(ev)
    ensures var h, r := Handled(s, ev), Step(s, ev, frame); SameMail(h, r) && r.waiting == h.waiting
  {
    var h := Handled(s, ev);
    StepIs(s, ev, frame);
    if s.mode == User {
      ExitKeepsMail(h, frame);
      ExitKeepsWaiting(h, frame);
    } else {
      SwitchInKeepsMail(h.(reenter := 0, cpu := s.cpu));
    }
  }

  // ----- handlers: what happens to one thread's mail

  /** The mail fields of thread `t` after the handler of `ev`. */
  ghost function HandledThread(s: State, ev: Event, t: Tid): Thread
    requires Closed(s) && EventOk(s, ev) && SchedulerSteps.Entry(ev) && t in s.threads
  {
    var th := s.threads[t];
    if ev.Interrupt? then
      if ev.irq.Key? && ev.irq.target == t then Posted(th, ev.irq.data) else th
    else if t != s.running || th.uid != 0 then th
    else if ev.call.Wait? then th.(ready := false, wait := true, sigWait := th.sigWait + ev.call.flags)
    else if ev.call.Cycle? && th.port != [] then th.(port := th.port[1..])
    else th
  }

  lemma HandledThreads(s: State, ev: Event)
    requires Closed(s) && EventOk(s, ev) && SchedulerSteps.Entry(ev)
    ensures forall t :: t in s.threads ==> Handled(s, ev).threads[t] == HandledThread(s, ev, t)
  {
    if ev.Interrupt? { HandledIrqThreads(s, ev.irq); } else { HandledCallThreads(s, ev.call); }
  }

  lemma HandledIrqThreads(s: State, irq: Irq)
    requires Closed(s) && EventOk(s, Interrupt(irq))
    ensures forall t :: t in s.threads ==> HandleIrq(EnterKernel(s), irq).threads[t] == HandledThread(s, Interrupt(irq), t)
  {
    hide Post, Posted;
    if irq.Key? { PostFrame(EnterKernel(s), irq.target, irq.data); }
  }

  lemma HandledCallThreads(s: State, call: Syscall)
    requires Closed(s) && EventOk(s, Trap(call))
    ensures forall t :: t in s.threads ==> HandleTrap(EnterKernel(s), call).threads[t] == HandledThread(s, Trap(call), t)
  {
    hide Enqueued;
  }

  /** The waiting queue after the handler of `ev`, as a set. */
  lemma HandledWaiting(s: State, ev: Event)
    requires Inv(s) && EventOk(s, ev) && SchedulerSteps.Entry(ev)
    ensures var w := Handled(s, ev).waiting;
      if ev.Trap? && ev.call.Wait? && Running(s).uid == 0 then forall t :: t in w <==> t in s.waiting || t == s.running
      else if ev.Interrupt? && ev.irq.Key? && |ev.irq.data| <= MAX_MSG_SZ && ST_MESG in s.threads[ev.irq.target].sigWait
      then forall t :: t in w <==> t in s.waiting && t != ev.irq.target
      else w == s.waiting
  {
    var s0 := EnterKernel(s);
    if ev.Interrupt? && ev.irq.Key? {
      PostFrame(s0, ev.irq.target, ev.irq.data);
      if ST_MESG in s.threads[ev.irq.target].sigWait { WithoutFacts(s.threads, s.waiting, ev.irq.target); }
    } else if ev.Trap? && ev.call.Wait? && Running(s).uid == 0 {
      EnqueuedFacts(s.threads, s.waiting, s.running);
    }
  }

  ghost predicate WaitsAfter(s: State, ev: Event, t: Tid)
    requires Closed(s) && EventOk(s, ev) && t in s.threads
  {
    if ev.Trap? && ev.call.Wait? && Running(s).uid == 0 && t == s.running then true
    else if ev.Interrupt? && ev.irq.Key? && ev.irq.target == t && |ev.irq.data| <= MAX_MSG_SZ
            && ST_MESG in s.threads[t].sigWait then false
    else t in s.waiting
  }

  /** What an entry does to mail, wait sets and the waiting queue, wherever it ends. */
  ghost predicate EntryEffect(s: State, ev: Event, r: State)
    requires Closed(s) && EventOk(s, ev) && SchedulerSteps.Entry(ev)
  {
    && Closed(r) && r.threads.Keys == s.threads.Keys
    && forall t :: t in s.threads ==>
         SameButProcessor(HandledThread(s, ev, t), r.threads[t]) && (t in r.waiting <==> WaitsAfter(s, ev, t))
  }

  lemma EntryHasEffect(s: State, ev: Event, frame: Context)
    requires Inv(s) && EventOk(s, ev) && SchedulerSteps.Entry(ev)
    ensures EntryEffect(s, ev, Step(s, ev, frame))
  {
    var h, r := Handled(s, ev), Step(s, ev, frame);
    assert SameMail(h, r) && r.waiting == h.waiting by { StepKeepsMail(s, ev, frame); }
    assert Keeps(s, h);
    forall t | t in s.threads
      ensures SameButProcessor(HandledThread(s, ev, t), r.threads[t]) && (t in r.waiting <==> WaitsAfter(s, ev, t))
    {
      assert h.threads[t] == HandledThread(s, ev, t) by { HandledThreads(s, ev); }
      assert t in h.waiting <==> WaitsAfter(s, ev, t) by { HandledWaiting(s, ev); }
    }
  }

  // ----- a disciplined step keeps everything

  /** The machine after an entry that ended in state `r`. */
  ghost function After(m: Machine, ev: Event, r: State): Machine
    requires Tracked(m) && EventOk(m.s, ev)
  {
    Machine(r, ObserveEvent(m, ev))
  }

  lemma ObservedKeys(m: Machine, ev: Event)
    requires Tracked(m) && EventOk(m.s, ev) && SchedulerSteps.Entry(ev)
    ensures var h := ObserveEvent(m, ev);
      h.posted.Keys == m.h.posted.Keys && h.cycled.Keys == m.h.cycled.Keys && h.progress.Keys == m.h.progress.Keys
    ensures ObserveEvent(m, ev).last == m.h.last
  {}

  lemma PortIrq(m: Machine, irq: Irq, t: Tid)
    requires Tracked(m) && EventOk(m.s, Interrupt(irq)) && t in m.s.threads && PortOk(m, t)
    ensures var h, th := ObserveIrq(m, irq), HandledThread(m.s, Interrupt(irq), t);
      && t in h.posted && t in h.cycled && h.posted[t] == h.cycled[t] + th.port && th.numMsg == |h.posted[t]| % 256
  {
    hide Posted, Closed;
    if irq.Key? && irq.target == t {
      PostedMail(m.s.threads[t], irq.data);
      OneMore(|m.h.posted[t]|);
    }
  }

  lemma PostedMail(th: Thread, data: Message)
    ensures var r := Posted(th, data);
      if |data| > MAX_MSG_SZ then r == th else r.port == th.port + [data] && r.numMsg == (th.numMsg + 1) % 256
  {}

  lemma OneMore(n: nat)
    ensures (n % 256 + 1) % 256 == (n + 1) % 256
  {}

  lemma PortCall(m: Machine, call: Syscall, t: Tid)
    requires Tracked(m) && EventOk(m.s, Trap(call)) && t in m.s.threads && PortOk(m, t)
    ensures var h, th := ObserveCall(m, call), HandledThread(m.s, Trap(call), t);
      && t in h.posted && t in h.cycled && h.posted[t] == h.cycled[t] + th.port && th.numMsg == |h.posted[t]| % 256
  {
    var port := m.s.threads[t].port;
    if t == m.s.running && call.Cycle? && port != [] {
      assert m.h.cycled[t] + port == m.h.cycled[t] + [port[0]] + port[1..];
    }
  }

  lemma PortsEntry(m: Machine, ev: Event, r: State)
    requires Tracked(m) && EventOk(m.s, ev) && SchedulerSteps.Entry(ev) && EntryEffect(m.s, ev, r)
    requires PortsConserve(m)
    ensures Tracked(After(m, ev, r)) && PortsConserve(After(m, ev, r))
  {
    ObservedKeys(m, ev);
    forall t | t in r.threads ensures PortOk(After(m, ev, r), t) {
      assert PortOk(m, t);
      assert SameButProcessor(HandledThread(m.s, ev, t), r.threads[t]);
      if ev.Interrupt? { PortIrq(m, ev.irq, t); } else { PortCall(m, ev.call, t); }
    }
  }

  lemma BlocksOne(m: Machine, ev: Event, t: Tid)
    requires Tracked(m) && EventOk(m.s, ev) && SchedulerSteps.Entry(ev) && t in m.s.threads
    requires BlockedForMail(m.s.threads[t], t in m.s.waiting, m.h.progress[t])
    requires Disciplined(m, ev) && (ev.Trap? ==> m.s.running !in m.s.waiting)
    ensures t in ObserveEvent(m, ev).progress
    ensures BlockedForMail(HandledThread(m.s, ev, t), WaitsAfter(m.s, ev, t), ObserveEvent(m, ev).progress[t])
  {
    if ev.Trap? && t == m.s.running { assert {} + {ST_MESG} == {ST_MESG}; }
  }

  lemma BlocksEntry(m: Machine, ev: Event, r: State)
    requires Tracked(m) && EventOk(m.s, ev) && SchedulerSteps.Entry(ev) && EntryEffect(m.s, ev, r)
    requires BlocksForMail(m) && Disciplined(m, ev) && (ev.Trap? ==> m.s.running !in m.s.waiting)
    ensures Tracked(After(m, ev, r)) && BlocksForMail(After(m, ev, r))
  {
    ObservedKeys(m, ev);
    forall t | t in r.threads
      ensures BlockedForMail(r.threads[t], t in r.waiting, ObserveEvent(m, ev).progress[t])
    {
      assert BlockedForMail(m.s.threads[t], t in m.s.waiting, m.h.progress[t]);
      BlocksOne(m, ev, t);
      assert SameButProcessor(HandledThread(m.s, ev, t), r.threads[t]) && (t in r.waiting <==> WaitsAfter(m.s, ev, t));
    }
  }

  lemma RacesOne(m: Machine, ev: Event, t: Tid)
    requires Tracked(m) && EventOk(m.s, ev) && SchedulerSteps.Entry(ev) && t in m.s.threads
    requires RaceKnown(m.s.threads[t], t in m.s.waiting, m.h.progress[t], t in m.h.raced)
    requires BlockedForMail(m.s.threads[t], t in m.s.waiting, m.h.progress[t])
    requires Disciplined(m, ev) && (ev.Trap? ==> m.s.running !in m.s.waiting)
    ensures t in ObserveEvent(m, ev).progress
    ensures var h := ObserveEvent(m, ev);
      RaceKnown(HandledThread(m.s, ev, t), WaitsAfter(m.s, ev, t), h.progress[t], t in h.raced)
  {}

  lemma RacesEntry(m: Machine, ev: Event, r: State)
    requires Tracked(m) && EventOk(m.s, ev) && SchedulerSteps.Entry(ev) && EntryEffect(m.s, ev, r)
    requires RacesKnown(m) && BlocksForMail(m) && Disciplined(m, ev) && (ev.Trap? ==> m.s.running !in m.s.waiting)
    ensures Tracked(After(m, ev, r)) && RacesKnown(After(m, ev, r))
  {
    ObservedKeys(m, ev);
    var h := ObserveEvent(m, ev);
    forall t | t in r.threads ensures RaceKnown(r.threads[t], t in r.waiting, h.progress[t], t in h.raced) {
      assert RaceKnown(m.s.threads[t], t in m.s.waiting, m.h.progress[t], t in m.h.raced);
      assert BlockedForMail(m.s.threads[t], t in m.s.waiting, m.h.progress[t]);
      RacesOne(m, ev, t);
      assert SameButProcessor(HandledThread(m.s, ev, t), r.threads[t]) && (t in r.waiting <==> WaitsAfter(m.s, ev, t));
    }
  }

  // ----- contexts

  lemma SwitchInContexts(s: State, last: map<Tid, Context>)
    requires Closed(s) && forall t :: t in s.threads ==> ContextOk(s.threads[t], last, t)
    ensures var r := SwitchIn(s);
      && (forall t :: t in s.threads && !(r.mode == User && t == r.running) ==> ContextOk(r.threads[t], last, t))
      && (s.ready != [] ==> r.cpu == ResumePoint(last, r.running))
  {}

  lemma ExitContexts(s: State, frame: Context, last: map<Tid, Context>)
    requires Core(s, s.needSwitch) && RunFlag(s.threads, s.running, true) && s.reenter == 0 && s.mode == User
    requires s.running in last && last[s.running] == frame
    requires forall t :: t in s.threads && t != s.running ==> ContextOk(s.threads[t], last, t)
    ensures var r := Dispatch(s, frame);
      && (forall t :: t in s.threads && !(r.mode == User && t == r.running) ==> ContextOk(r.threads[t], last, t))
      && (r.mode == User ==> r.cpu == ResumePoint(last, r.running))
  {
    if s.needSwitch {
      var s1 := SwitchOut(s, frame);
      forall t | t in s1.threads ensures ContextOk(s1.threads[t], last, t) {}
      SwitchInContexts(s1, last);
    }
  }

  /** Handlers leave the processor state of every thread alone. */
  lemma HandledContext(s: State, ev: Event, t: Tid)
    requires Closed(s) && EventOk(s, ev) && SchedulerSteps.Entry(ev) && t in s.threads
    ensures var th, r := s.threads[t], HandledThread(s, ev, t);
      r.launch == th.launch && r.kernelEsp == th.kernelEsp && r.run == th.run
  {}

  lemma HandledCore(s: State, ev: Event)
    requires Inv(s) && EventOk(s, ev) && SchedulerSteps.Entry(ev) && s.mode == User && !DoubleLink(s, ev)
    ensures var h := Handled(s, ev);
      && Core(h, h.needSwitch) && RunFlag(h.threads, h.running, true) && h.running == s.running
      && h.reenter == 0 && h.mode == User && (h.needSwitch && h.needSchedule ==> !Running(h).signal && !Preempts(h))
  {
    var s0 := EnterKernel(s);
    if ev.Interrupt? {
      IrqCore(s0, ev.irq, false, true);
    } else if Running(s).uid == 0 {
      assert Core(s0, false) && (Preempts(s0) <==> Preempts(s));
      SystemCallCore(s0, ev.call);
    }
  }

  lemma ScheduleKeepsThreads(h: State)
    requires Core(h, h.needSwitch) && RunFlag(h.threads, h.running, true) && h.reenter == 0 && h.mode == User
    requires h.needSwitch && h.needSchedule ==> !Running(h).signal && !Preempts(h)
    ensures var r := ScheduleIfNeeded(h);
      && Core(r, r.needSwitch) && r.threads == h.threads && r.running == h.running && r.reenter == 0 && r.mode == User
  {
    if h.needSchedule && !h.needSwitch { ScheduleCore(h.(needSchedule := false)); }
  }

  lemma HandledSaved(s: State, ev: Event, last: map<Tid, Context>)
    requires Closed(s) && EventOk(s, ev) && SchedulerSteps.Entry(ev) && SavedOffProcessor(s, last)
    ensures forall t :: t in s.threads && !(s.mode == User && t == s.running) ==>
      ContextOk(Handled(s, ev).threads[t], last, t)
  {
    HandledThreads(s, ev);
    forall t | t in s.threads ensures var th, r := s.threads[t], HandledThread(s, ev, t);
      r.launch == th.launch && r.kernelEsp == th.kernelEsp
    {
      HandledContext(s, ev, t);
    }
  }

  lemma ContextsFromUser(s: State, ev: Event, frame: Context, last: map<Tid, Context>)
    requires Inv(s) && EventOk(s, ev) && SchedulerSteps.Entry(ev) && !DoubleLink(s, ev)
    requires SavedOffProcessor(s, last) && s.mode == User && s.running in last && last[s.running] == frame
    ensures var r := Step(s, ev, frame);
      SavedOffProcessor(r, last) && (r.mode == User ==> r.cpu == ResumePoint(last, r.running))
  {
    var h := Handled(s, ev);
    HandledSaved(s, ev, last);
    HandledCore(s, ev);
    ScheduleKeepsThreads(h);
    ExitContexts(ScheduleIfNeeded(h), frame, last);
    assert Step(s, ev, frame) == Dispatch(ScheduleIfNeeded(h), frame) by { StepIs(s, ev, frame); }
  }

  lemma ContextsFromIdle(s: State, ev: Event, frame: Context, last: map<Tid, Context>)
    requires Inv(s) && EventOk(s, ev) && SchedulerSteps.Entry(ev) && s.mode == Halted && SavedOffProcessor(s, last)
    ensures var r := Step(s, ev, frame);
      SavedOffProcessor(r, last) && (r.mode == User ==> r.cpu == ResumePoint(last, r.running))
  {
    var h := Handled(s, ev);
    HandledSaved(s, ev, last);
    StepIs(s, ev, frame);
    assert h.mode == Halted by { IrqFrame(EnterKernel(s), ev.irq, 0); }
    SwitchInContexts(h.(reenter := 0, cpu := s.cpu), last);
  }

  /** Whoever runs next continues where it stopped; whoever does not run is saved. */
  lemma ContextsEntry(s: State, ev: Event, frame: Context, last: map<Tid, Context>)
    requires Inv(s) && EventOk(s, ev) && SchedulerSteps.Entry(ev) && !DoubleLink(s, ev)
    requires SavedOffProcessor(s, last) && (s.mode == User ==> s.running in last && last[s.running] == frame)
    ensures var r := Step(s, ev, frame);
      SavedOffProcessor(r, last) && (r.mode == User ==> r.cpu == ResumePoint(last, r.running))
  {
    if s.mode == User { ContextsFromUser(s, ev, frame, last); } else { ContextsFromIdle(s, ev, frame, last); }
  }

  // ----- the runner after the idle loop

  /** Out of an empty ready queue the only thread to come is the one just notified. */
  lemma WokenIsHead(s: State, t: Tid, data: Message)
    requires Inv(s) && s.mode == Halted && t in s.threads
    ensures var q := Post(EnterKernel(s), t, data).ready; q == [] || (q == [t] && t in s.waiting)
  {
    var s1 := AppendMessage(EnterKernel(s), t, data);
    var w := s1.threads[t].sigWait;
    assert Without([], t) == [];
    if w * {ST_MESG} != {} { assert ST_MESG in w; }
  }

  lemma IdleEndsWithWaiter(s: State, ev: Event, frame: Context)
    requires Inv(s) && EventOk(s, ev) && SchedulerSteps.Entry(ev) && s.mode == Halted
    ensures var r := Step(s, ev, frame); r.mode == User ==> r.running in s.waiting
  {
    StepIs(s, ev, frame);
    var h := Handled(s, ev);
    assert h.mode == Halted by { IrqFrame(EnterKernel(s), ev.irq, 0); }
    if ev.irq.Key? { WokenIsHead(s, ev.irq.target, ev.irq.data); }
  }

  lemma PendingEntry(m: Machine, ev: Event, frame: Context)
    requires Tracked(m) && Inv(m.s) && EventOk(m.s, ev) && SchedulerSteps.Entry(ev) && BlocksForMail(m)
    ensures var r := Step(m.s, ev, frame);
      r.mode == User && r.needSchedule ==>
        r.running in ObserveEvent(m, ev).progress && ObserveEvent(m, ev).progress[r.running] == Waited
  {
    hide Step, Places, Sorted, Flags, RunFlag, BlocksForMail;
    var r := Step(m.s, ev, frame);
    if r.mode == User && r.needSchedule {
      assert m.s.mode == Halted by { PendingMeansIdled(m.s, ev, frame); }
      assert r.running in m.s.waiting by { IdleEndsWithWaiter(m.s, ev, frame); }
      WaiterWaits(m, r.running);
    }
  }

  lemma WaiterWaits(m: Machine, t: Tid)
    requires Tracked(m) && BlocksForMail(m) && t in m.s.waiting
    ensures m.h.progress[t] == Waited
  {
    assert BlockedForMail(m.s.threads[t], true, m.h.progress[t]);
  }

  // ----- all together

  ghost predicate Admitted(m: Machine, c: Call) {
    Tracked(m) && EventOk(m.s, c.ev) && Disciplined(m, c.ev)
  }

  lemma DisciplineAvoidsDoubleLink(m: Machine, ev: Event)
    requires Tracked(m) && PendingAfterWait(m) && EventOk(m.s, ev) && Disciplined(m, ev)
    ensures !DoubleLink(m.s, ev)
  {}

  /** Everything but the contexts, in a state `r` known only by its effect. */
  lemma EntryMailGood(m: Machine, ev: Event, r: State, h': History)
    requires Good(m) && EventOk(m.s, ev) && SchedulerSteps.Entry(ev) && Disciplined(m, ev) && EntryEffect(m.s, ev, r)
    requires h' == ObserveEvent(m, ev).(last := h'.last)
    requires r.mode == User && r.needSchedule ==>
      r.running in ObserveEvent(m, ev).progress && ObserveEvent(m, ev).progress[r.running] == Waited
    ensures var n := Machine(r, h'); Tracked(n) && PortsConserve(n) && BlocksForMail(n) && RacesKnown(n) && PendingAfterWait(n)
  {
    var a := After(m, ev, r);
    assert ev.Trap? ==> m.s.running !in m.s.waiting;
    assert Tracked(a) && PortsConserve(a) by { PortsEntry(m, ev, r); }
    assert BlocksForMail(a) by { BlocksEntry(m, ev, r); }
    assert RacesKnown(a) by { RacesEntry(m, ev, r); }
    LastFrame(a, h');
  }

  lemma EntryContextsGood(m: Machine, c: Call)
    requires Good(m) && Admitted(m, c) && SchedulerSteps.Entry(c.ev)
    ensures var r, last := Step(m.s, c.ev, Frame(c.frame)), Observe(m, c.ev, c.frame).last;
      && SavedOffProcessor(r, last) && (r.mode == User ==> r.cpu == ResumePoint(last, r.running))
      && last.Keys <= m.s.threads.Keys
  {
    DisciplineAvoidsDoubleLink(m, c.ev);
    ObservedKeys(m, c.ev);
    ContextsEntry(m.s, c.ev, Frame(c.frame), Observe(m, c.ev, c.frame).last);
  }

  lemma EntryGood(m: Machine, c: Call)
    requires Good(m) && Admitted(m, c) && SchedulerSteps.Entry(c.ev)
    ensures Good(Advance(m, c))
  {
    var s, ev, frame := m.s, c.ev, Frame(c.frame);
    var r, h' := Step(s, ev, frame), Observe(m, ev, c.frame);
    assert Inv(r) by { DisciplineAvoidsDoubleLink(m, ev); StepInv(s, ev, frame); }
    assert EntryEffect(s, ev, r) by { EntryHasEffect(s, ev, frame); }
    PendingEntry(m, ev, frame);
    EntryMailGood(m, ev, r, h');
    EntryContextsGood(m, c);
    assert Advance(m, c) == Machine(r, h');
  }

  /** The invariants other than the contexts do not look at `last`. */
  lemma LastFrame(a: Machine, h': History)
    requires Tracked(a) && PortsConserve(a) && BlocksForMail(a) && RacesKnown(a) && PendingAfterWait(a)
    requires h' == a.h.(last := h'.last)
    ensures var n := Machine(a.s, h'); Tracked(n) && PortsConserve(n) && BlocksForMail(n) && RacesKnown(n) && PendingAfterWait(n)
  {
    var n := Machine(a.s, h');
    forall t | t in n.s.threads ensures PortOk(n, t) { assert PortOk(a, t); }
  }

  lemma CreateGood(m: Machine, c: Call)
    requires Good(m) && Admitted(m, c) && c.ev.Create?
    ensures Good(Advance(m, c))
  {
    hide CreateThread, Inv, PortOk, ContextOk, BlockedForMail, RaceKnown;
    var s, t, n := m.s, c.ev.thread, Advance(m, c);
    CreatedShape(s, t, c.ev.pri, c.ev.uid);
    CreateInv(s, t, c.ev.pri, c.ev.uid);
    InvPlaces(s);
    NewThreadGood(n, t);
    forall x | x in s.threads ensures PortOk(n, x) { PortOkSame(m, n, x); }
  }

  /** All that create_thread() changes besides the ready queue is its own descriptor. */
  lemma CreatedShape(s: State, t: Tid, pri: int, uid: nat)
    requires Closed(s) && t !in s.threads
    ensures var r, th := CreateThread(s, t, pri, uid), Thread(pri, uid, false, false, true, false, true, {}, {}, Nowhere, [], 0);
      r == s.(ready := r.ready, threads := s.threads[t := th])
  {
    hide Enqueued;
  }

  lemma InvPlaces(s: State)
    requires Inv(s)
    ensures s.running in s.threads && forall t :: t in s.waiting ==> t in s.threads
  {}

  lemma NewThreadGood(n: Machine, t: Tid)
    requires Tracked(n) && t in n.s.threads && n.h.posted[t] == [] && n.h.cycled[t] == []
    requires n.s.threads[t].port == [] && n.s.threads[t].numMsg == 0
    requires n.s.threads[t].sigWait == {} && n.s.threads[t].launch && t !in n.h.last
    ensures PortOk(n, t) && ContextOk(n.s.threads[t], n.h.last, t)
    ensures BlockedForMail(n.s.threads[t], false, Elsewhere)
    ensures RaceKnown(n.s.threads[t], false, Elsewhere, t in n.h.raced)
  {}

  lemma PortOkSame(m: Machine, n: Machine, x: Tid)
    requires Tracked(m) && Tracked(n) && x in m.s.threads && x in n.s.threads && PortOk(m, x)
    requires n.h.posted[x] == m.h.posted[x] && n.h.cycled[x] == m.h.cycled[x] && n.s.threads[x] == m.s.threads[x]
    ensures PortOk(n, x)
  {}

  lemma {:induction false} AdvanceGood(m: Machine, c: Call)
    requires Good(m) && Admitted(m, c)
    ensures Good(Advance(m, c))
  {
    if SchedulerSteps.Entry(c.ev) {
      EntryGood(m, c);
    } else if c.ev.Create? {
      CreateGood(m, c);
    } else {
      var n := Advance(m, c);
      assert Inv(n.s) by { StepInv(m.s, c.ev, Frame(c.frame)); }
      forall x | x in n.s.threads ensures PortOk(n, x) { assert PortOk(m, x); }
    }
  }

  // ----- whole runs

  /** The calls `cs`, each admitted in turn, lead from `m` to `r`. */
  ghost predicate Runs(m: Machine, cs: seq<Call>, r: Machine)
    decreases |cs|
  {
    if cs == [] then r == m else Admitted(m, cs[0]) && Runs(Advance(m, cs[0]), cs[1..], r)
  }

  lemma BootGood(kernel: Tid)
    ensures Good(Boot(kernel))
  {
    assert PortOk(Boot(kernel), kernel);
  }

  lemma {:induction false} RunGood(m: Machine, cs: seq<Call>, r: Machine)
    requires Good(m) && Runs(m, cs, r)
    ensures Good(r)
    decreases |cs|
  {
    if cs != [] {
      AdvanceGood(m, cs[0]);
      RunGood(Advance(m, cs[0]), cs[1..], r);
    }
  }

  lemma FromBoot(kernel: Tid, cs: seq<Call>, r: Machine)
    requires Runs(Boot(kernel), cs, r)
    ensures Good(r)
  {
    BootGood(kernel);
    RunGood(Boot(kernel), cs, r);
  }

  /** In every run each thread has one place, and whoever waits for messages is in the wait queue. */
  lemma EveryRunPartitions(kernel: Tid, cs: seq<Call>, r: Machine)
    requires Runs(Boot(kernel), cs, r)
    ensures ExactlyOnePlace(r.s)
    ensures forall t :: t in r.s.threads && ST_MESG in r.s.threads[t].sigWait ==> t in r.s.waiting
  {
    FromBoot(kernel, cs, r);
    InvMeansOnePlace(r.s);
    forall t | t in r.s.threads && ST_MESG in r.s.threads[t].sigWait ensures t in r.s.waiting {
      assert BlockedForMail(r.s.threads[t], t in r.s.waiting, r.h.progress[t]);
    }
  }

  /** In every run the runner continues from its last entry, or starts if it never ran. */
  lemma EveryRunKeepsContexts(kernel: Tid, cs: seq<Call>, r: Machine)
    requires Runs(Boot(kernel), cs, r) && r.s.mode == User
    ensures r.s.cpu == ResumePoint(r.h.last, r.s.running)
  {
    FromBoot(kernel, cs, r);
  }

  /** In every run a port's posts are, in order, its cycled messages and then its contents. */
  lemma EveryRunConservesMail(kernel: Tid, cs: seq<Call>, r: Machine, t: Tid)
    requires Runs(Boot(kernel), cs, r) && t in r.s.threads
    ensures t in r.h.posted && t in r.h.cycled
    ensures r.h.posted[t] == r.h.cycled[t] + r.s.threads[t].port
    ensures r.s.threads[t].numMsg == |r.h.posted[t]| % 256
  {
    FromBoot(kernel, cs, r);
    assert PortOk(r, t);
  }

  /** A blocked thread sits on a message exactly if the post raced with its wait. */
  lemma EveryRunBlocksExactly(kernel: Tid, cs: seq<Call>, r: Machine, t: Tid)
    requires Runs(Boot(kernel), cs, r) && t in r.s.waiting
    ensures t in r.s.threads && (r.s.threads[t].port != [] <==> t in r.h.raced)
  {
    FromBoot(kernel, cs, r);
    assert RaceKnown(r.s.threads[t], true, r.h.progress[t], t in r.h.raced);
  }

  /** Along the run no entry comes while multitasking is forbidden, and no new thread is above the runner. */
  ghost predicate Preemptible(m: Machine, cs: seq<Call>)
    decreases |cs|
  {
    cs != [] ==>
      && Admitted(m, cs[0])
      && (SchedulerSteps.Entry(cs[0].ev) ==> m.s.forbid <= 0)
      && (cs[0].ev.Create? ==> cs[0].ev.pri <= Running(m.s).pri)
      && Preemptible(Advance(m, cs[0]), cs[1..])
  }

  /** However many entries, nested or not: once the highest priority thread runs, it always does. */
  lemma {:induction false} RunKeepsHighest(m: Machine, cs: seq<Call>, r: Machine)
    requires Good(m) && HighestRuns(m.s) && Runs(m, cs, r) && Preemptible(m, cs)
    ensures Closed(r.s) && HighestRuns(r.s)
    decreases |cs|
  {
    hide Inv, HighestRuns, DoubleLink;
    if cs != [] {
      AdvanceHighest(m, cs[0]);
      AdvanceGood(m, cs[0]);
      RunKeepsHighest(Advance(m, cs[0]), cs[1..], r);
    }
  }

  lemma AdvanceHighest(m: Machine, c: Call)
    requires Good(m) && Admitted(m, c) && HighestRuns(m.s)
    requires SchedulerSteps.Entry(c.ev) ==> m.s.forbid <= 0
    requires c.ev.Create? ==> c.ev.pri <= Running(m.s).pri
    ensures HighestRuns(Advance(m, c).s)
  {
    hide Step, Inv, DoubleLink, HighestRuns, Disciplined, PortsConserve, ContextsKept, BlocksForMail, PendingAfterWait, RacesKnown;
    if SchedulerSteps.Entry(c.ev) {
      DisciplineAvoidsDoubleLink(m, c.ev);
      HighestPriorityRuns(m.s, c.ev, Frame(c.frame));
    } else if c.ev.Create? {
      CreateHighest(m.s, c.ev.thread, c.ev.pri, c.ev.uid, Frame(c.frame));
    } else {
      CounterHighest(m.s, c.ev, Frame(c.frame));
    }
  }

  lemma CounterHighest(s: State, ev: Event, frame: Context)
    requires Closed(s) && EventOk(s, ev) && (ev.Forbid? || ev.Permit?) && HighestRuns(s)
    ensures HighestRuns(Step(s, ev, frame))
  {}

  /** One thread's share of an entry's effect. */
  lemma EntryThread(s: State, ev: Event, frame: Context, t: Tid)
    requires Inv(s) && EventOk(s, ev) && SchedulerSteps.Entry(ev) && t in s.threads
    ensures var r := Step(s, ev, frame);
      && t in r.threads && SameButProcessor(HandledThread(s, ev, t), r.threads[t])
      && (t in r.waiting <==> WaitsAfter(s, ev, t))
  {
    EntryHasEffect(s, ev, frame);
  }

  // ----- retrieving and cycling

  /** `t` cycles no message in the run. */
  ghost predicate NeverCycles(m: Machine, cs: seq<Call>, t: Tid)
    decreases |cs|
  {
    cs == [] ||
    (Admitted(m, cs[0]) && !(cs[0].ev == Trap(Cycle) && m.s.running == t) && NeverCycles(Advance(m, cs[0]), cs[1..], t))
  }

  lemma PortGrows(m: Machine, c: Call, t: Tid)
    requires Good(m) && Admitted(m, c) && t in m.s.threads && !(c.ev == Trap(Cycle) && m.s.running == t)
    ensures t in Advance(m, c).s.threads && m.s.threads[t].port <= Advance(m, c).s.threads[t].port
  {
    hide Step, Inv, PortsConserve, ContextsKept, BlocksForMail, PendingAfterWait, RacesKnown, Posted;
    if SchedulerSteps.Entry(c.ev) {
      EntryThread(m.s, c.ev, Frame(c.frame), t);
      if c.ev.Interrupt? && c.ev.irq.Key? { PostedMail(m.s.threads[t], c.ev.irq.data); }
    } else {
      OthersStay(m.s, c.ev, Frame(c.frame), t);
    }
  }

  /** Nothing but an entry changes a thread that exists. */
  lemma OthersStay(s: State, ev: Event, frame: Context, t: Tid)
    requires Closed(s) && EventOk(s, ev) && !SchedulerSteps.Entry(ev) && t in s.threads
    ensures var r := Step(s, ev, frame); t in r.threads && r.threads[t] == s.threads[t]
  {
    hide CreateThread;
    if ev.Create? { CreatedShape(s, ev.thread, ev.pri, ev.uid); }
  }

  /** Until its owner cycles, whatever is posted, the head of a port stays. */
  lemma {:induction false} HeadStays(m: Machine, cs: seq<Call>, r: Machine, t: Tid)
    requires Good(m) && Runs(m, cs, r) && t in m.s.threads && NeverCycles(m, cs, t)
    ensures t in r.s.threads && m.s.threads[t].port <= r.s.threads[t].port
    decreases |cs|
  {
    if cs != [] {
      PortGrows(m, cs[0], t);
      AdvanceGood(m, cs[0]);
      HeadStays(Advance(m, cs[0]), cs[1..], r, t);
    }
  }

  /** The cycle after a successful retrieve removes the very message retrieved. */
  lemma CycleTakesRetrieved(m: Machine, cs: seq<Call>, r: Machine, c: Call)
    requires Good(m) && Runs(m, cs, r) && NeverCycles(m, cs, m.s.running)
    requires Running(m.s).port != [] && Running(m.s).uid == 0
    requires r.s.running == m.s.running && Admitted(r, c) && c.ev == Trap(Cycle)
    ensures var n, t := Advance(r, c), m.s.running;
      && t in r.h.cycled && t in n.h.cycled && n.h.cycled[t] == r.h.cycled[t] + [Running(m.s).port[0]]
  {
    hide Step, Inv, PortsConserve, ContextsKept, BlocksForMail, PendingAfterWait, RacesKnown, Runs, NeverCycles;
    var t := m.s.running;
    HeadStays(m, cs, r, t);
    UidStays(m, cs, r, t);
  }

  lemma UidStep(m: Machine, c: Call, t: Tid)
    requires Good(m) && Admitted(m, c) && t in m.s.threads
    ensures t in Advance(m, c).s.threads && Advance(m, c).s.threads[t].uid == m.s.threads[t].uid
  {
    hide Step, Inv, PortsConserve, ContextsKept, BlocksForMail, PendingAfterWait, RacesKnown;
    if SchedulerSteps.Entry(c.ev) {
      UidEntry(m.s, c.ev, Frame(c.frame), t);
    } else {
      OthersStay(m.s, c.ev, Frame(c.frame), t);
    }
  }

  lemma UidEntry(s: State, ev: Event, frame: Context, t: Tid)
    requires Inv(s) && EventOk(s, ev) && SchedulerSteps.Entry(ev) && t in s.threads
    ensures var r := Step(s, ev, frame); t in r.threads && r.threads[t].uid == s.threads[t].uid
  {
    hide Step, Inv, Posted;
    EntryThread(s, ev, frame, t);
    if ev.Interrupt? && ev.irq.Key? { PostedFrame(s.threads[t], ev.irq.data); }
  }

  lemma {:induction false} UidStays(m: Machine, cs: seq<Call>, r: Machine, t: Tid)
    requires Good(m) && Runs(m, cs, r) && t in m.s.threads
    ensures t in r.s.threads && r.s.threads[t].uid == m.s.threads[t].uid
    decreases |cs|
  {
    if cs != [] {
      UidStep(m, cs[0], t);
      AdvanceGood(m, cs[0]);
      UidStays(Advance(m, cs[0]), cs[1..], r, t);
    }
  }

  // ----- wake-ups

  /** A post readies a thread blocked on messages in the same step. */
  lemma PostWakes(s: State, t: Tid, data: Message, frame: Context)
    requires Inv(s) && t in s.threads && ST_MESG in s.threads[t].sigWait && |data| <= MAX_MSG_SZ
    ensures var r := Step(s, Interrupt(Key(t, data)), frame);
      t !in r.waiting && (t in r.ready || (r.mode == User && r.running == t))
  {
    var ev := Interrupt(Key(t, data));
    EntryThread(s, ev, frame, t);
    assert ExactlyOnePlace(Step(s, ev, frame)) by { OnePlaceIff(s, ev, frame); }
  }

  /** Nothing else does: a blocked thread stays blocked, its port as it is, until a post arrives. */
  lemma OnlyPostWakes(s: State, ev: Event, t: Tid, frame: Context)
    requires Inv(s) && EventOk(s, ev) && !DoubleLink(s, ev) && t in s.waiting
    requires !(ev.Interrupt? && ev.irq.Key? && ev.irq.target == t && |ev.irq.data| <= MAX_MSG_SZ)
    ensures var r := Step(s, ev, frame); t in r.waiting && t in r.threads && r.threads[t].port == s.threads[t].port
  {
    if SchedulerSteps.Entry(ev) { EntryThread(s, ev, frame, t); }
  }
}
