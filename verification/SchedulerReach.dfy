/**
 What runs can come to: the race between a post and a wait, the wait that links its caller
 twice, and the one thing a run must avoid to be safe from it.
 */
module SchedulerReach {
  import opened Common
  import opened Lists
  import opened Scheduler
  import opened SchedulerInvariant
  import opened SchedulerSteps
  import opened SchedulerRuns

  // ----- entries that leave the runner alone

  /** With no reschedule pending, a retrieve, a cycle or a post to the runner ends where it began. */
  lemma QuietGoesOn(s: State, ev: Event, frame: Context)
    requires Inv(s) && EventOk(s, ev) && SchedulerSteps.Entry(ev) && s.mode == User && !s.needSchedule
    requires if ev.Interrupt? then ev.irq.Key? && ev.irq.target == s.running else !ev.call.Wait?
    ensures var r := Step(s, ev, frame); r.mode == User && r.running == s.running && !r.needSchedule && r.ready == s.ready
  {
    if ev.Interrupt? { NoSelfSignal(s, ev.irq.data); }
  }

  /** A running thread waits for nothing, so posting to it signals nobody. */
  lemma NoSelfSignal(s: State, data: Message)
    requires Inv(s) && s.mode == User
    ensures var r := Post(EnterKernel(s), s.running, data);
      SameFrame(EnterKernel(s), r) && r.ready == s.ready && r.needSwitch == s.needSwitch && r.needSchedule == s.needSchedule
  {
    assert s.running !in s.waiting;
    var s1 := AppendMessage(EnterKernel(s), s.running, data);
    assert s1.threads[s.running].sigWait * {ST_MESG} == {};
  }

  /** No reschedule is pending, the runner's port holds `port`, and its msg_retrieve() is at `p`. */
  ghost predicate Runner(m: Machine, t: Tid, port: seq<Message>, p: Progress) {
    && Good(m) && m.s.mode == User && !m.s.needSchedule && m.s.running == t
    && Running(m.s).uid == 0 && Running(m.s).port == port && m.h.progress[t] == p
  }

  lemma QuietStep(s: State, ev: Event, frame: Context)
    requires Inv(s) && EventOk(s, ev) && SchedulerSteps.Entry(ev) && s.mode == User && !s.needSchedule
    requires ev == Trap(Retrieve) || (ev.Interrupt? && ev.irq.Key? && ev.irq.target == s.running)
    ensures var r := Step(s, ev, frame);
      && r.mode == User && !r.needSchedule && r.running == s.running && s.running in r.threads
      && SameButProcessor(HandledThread(s, ev, s.running), r.threads[s.running])
  {
    QuietGoesOn(s, ev, frame);
    EntryThread(s, ev, frame, s.running);
  }

  lemma RunnerRetrieves(m: Machine, t: Tid, p: Progress, f: nat)
    requires Runner(m, t, [], p) && p != Empty
    ensures Runner(Advance(m, Call(Trap(Retrieve), f)), t, [], Empty)
  {
    hide Step, Good;
    GoodParts(m);
    QuietStep(m.s, Trap(Retrieve), Frame(f));
    AdvanceGood(m, Call(Trap(Retrieve), f));
  }

  lemma GoodParts(m: Machine)
    requires Good(m)
    ensures Tracked(m) && Inv(m.s) && m.s.running in m.s.threads && m.s.threads.Keys == m.h.progress.Keys
  {}

  lemma RunnerPosted(m: Machine, t: Tid, data: Message, f: nat)
    requires Runner(m, t, [], Empty) && |data| <= MAX_MSG_SZ
    ensures Runner(Advance(m, Call(Interrupt(Key(t, data)), f)), t, [data], Empty)
  {
    hide Step, Good, Inv, Posted;
    GoodParts(m);
    PostedMail(m.s.threads[t], data);
    PostedFrame(m.s.threads[t], data);
    QuietStep(m.s, Interrupt(Key(t, data)), Frame(f));
    AdvanceGood(m, Call(Interrupt(Key(t, data)), f));
  }

  ghost function RaceCalls(t: Tid, data: Message, f: nat): seq<Call> {
    [Call(Trap(Retrieve), f), Call(Interrupt(Key(t, data)), f), Call(Trap(Wait({ST_MESG})), f)]
  }

  /**
   The race happens wherever it can: whoever runs with an empty port, whatever else is ready,
   finds nothing, is posted to, and blocks on a non-empty port.
   */
  lemma RaceHappens(m: Machine, t: Tid, p: Progress, data: Message, f: nat) returns (r: Machine)
    requires Runner(m, t, [], p) && p != Empty && |data| <= MAX_MSG_SZ
    ensures Runs(m, RaceCalls(t, data, f), r)
    ensures t in r.s.waiting && t in r.s.threads && r.s.threads[t].port == [data]
  {
    hide Step, Inv, Runs, PortsConserve, ContextsKept, BlocksForMail, PendingAfterWait, RacesKnown, HandledThread;
    var c1, c2, c3 := Call(Trap(Retrieve), f), Call(Interrupt(Key(t, data)), f), Call(Trap(Wait({ST_MESG})), f);
    assert Admitted(m, c1);
    var m1 := Advance(m, c1);
    assert Runner(m1, t, [], Empty) by { RunnerRetrieves(m, t, p, f); }
    assert Admitted(m1, c2);
    var m2 := Advance(m1, c2);
    assert Runner(m2, t, [data], Empty) by { RunnerPosted(m1, t, data, f); }
    assert Admitted(m2, c3);
    r := Advance(m2, c3);
    assert t in r.s.waiting && t in r.s.threads && r.s.threads[t].port == [data] by {
      WaitBlocks(m2.s, {ST_MESG}, Frame(f));
    }
    RunsThree(m, c1, m1, c2, m2, c3, r);
  }

  lemma WaitBlocks(s: State, flags: Signals, frame: Context)
    requires Inv(s) && s.mode == User && Running(s).uid == 0
    ensures var r, t := Step(s, Trap(Wait(flags)), frame), s.running;
      t in r.waiting && t in r.threads && r.threads[t].port == s.threads[t].port
  {
    hide Step, Inv;
    RunnerKnown(s);
    EntryThread(s, Trap(Wait(flags)), frame, s.running);
  }

  lemma RunnerKnown(s: State)
    requires Inv(s)
    ensures Closed(s) && s.running in s.threads
  {}

  lemma RunsThree(m: Machine, c1: Call, m1: Machine, c2: Call, m2: Machine, c3: Call, r: Machine)
    requires Admitted(m, c1) && m1 == Advance(m, c1) && Admitted(m1, c2) && m2 == Advance(m1, c2)
    requires Admitted(m2, c3) && r == Advance(m2, c3)
    ensures Runs(m, [c1, c2, c3], r)
  {
    hide Admitted, Advance;
    assert [c3][1..] == [] && [c2, c3][1..] == [c3] && [c1, c2, c3][1..] == [c2, c3];
    assert Runs(r, [], r);
    assert Runs(m2, [c3], r);
    assert Runs(m1, [c2, c3], r);
  }

  // ----- the race in a run from boot

  lemma {:induction false} RunsAppend(m: Machine, cs: seq<Call>, n: Machine, ds: seq<Call>, r: Machine)
    requires Runs(m, cs, n) && Runs(n, ds, r)
    ensures Runs(m, cs + ds, r)
    decreases |cs|
  {
    hide Advance, Tracked, EventOk, Disciplined;
    if cs == [] {
      assert cs + ds == ds;
    } else {
      assert (cs + ds)[1..] == cs[1..] + ds && (cs + ds)[0] == cs[0];
      RunsAppend(Advance(m, cs[0]), cs[1..], n, ds, r);
    }
  }

  /** Before the quantum is over a tick only counts. */
  lemma EarlyTick(s: State, frame: Context)
    requires Inv(s) && s.mode == User && !s.needSchedule && s.count >= 1
    ensures Step(s, Interrupt(Timer), frame) == s.(count := s.count - 1, cpu := frame)
  {}

  /** The tick after the quantum hands the processor to a more urgent thread. */
  lemma LastTick(s: State, frame: Context)
    requires Inv(s) && s.mode == User && s.count == 0 && s.forbid <= 0
    requires s.ready != [] && Running(s).pri < s.threads[s.ready[0]].pri
    ensures var r := Step(s, Interrupt(Timer), frame); r.mode == User && r.running == s.ready[0] && !r.needSchedule
  {
    hide Places, Sorted, Flags, RunFlag, Restore;
    HeadIsMax(s.threads, s.ready);
    MoreUrgentStays(s.threads, s.ready, s.running);
    var h := HandleIrq(EnterKernel(s), Timer);
    var s1 := ScheduleIfNeeded(h);
    RestoreFrame(TakeHead(SwitchOut(s1, frame)));
  }

  lemma RestoreFrame(s: State)
    requires Closed(s)
    ensures var r := Restore(s); r.mode == User && r.running == s.running && r.needSchedule == s.needSchedule
  {}

  /** A less urgent thread enters behind the head. */
  lemma MoreUrgentStays(ths: map<Tid, Thread>, q: seq<Tid>, t: Tid)
    requires Known(ths, q) && t in ths && q != [] && ths[t].pri < ths[q[0]].pri
    ensures Enqueued(ths, q, t)[0] == q[0]
  {
    assert Priorities(ths, q)[0] == ths[q[0]].pri;
  }

  ghost function TickCalls(n: nat, f: nat): seq<Call> { seq(n, _ => Call(Interrupt(Timer), f)) }

  lemma TickAdvances(m: Machine, f: nat)
    requires Tracked(m)
    ensures var n := Advance(m, Call(Interrupt(Timer), f));
      n.s == Step(m.s, Interrupt(Timer), Frame(f)) && n.h.progress == m.h.progress && Admitted(m, Call(Interrupt(Timer), f))
  {
    hide Step;
  }

  /** Ticks within the quantum, as a run. */
  lemma {:induction false} TicksRun(m: Machine, n: nat, f: nat) returns (r: Machine)
    requires Good(m) && m.s.mode == User && !m.s.needSchedule && m.s.count >= n
    ensures Runs(m, TickCalls(n, f), r) && Good(r) && r.h.progress == m.h.progress
    ensures r.s == m.s.(count := m.s.count - n, cpu := r.s.cpu)
    decreases n
  {
    hide Good, Advance, Step, Inv;
    if n == 0 {
      r := m;
    } else {
      var c := Call(Interrupt(Timer), f);
      GoodParts(m);
      EarlyTick(m.s, Frame(f));
      TickAdvances(m, f);
      AdvanceGood(m, c);
      r := TicksRun(Advance(m, c), n - 1, f);
      assert TickCalls(n, f)[1..] == TickCalls(n - 1, f);
    }
  }

  /** What init() does before its user-mode loop: the keyboard thread, then permit(). */
  ghost function StartCalls(t: Tid, f: nat): seq<Call> { [Call(Create(t, 15, 0), f), Call(Permit, f)] }

  ghost predicate Started(m: Machine, kernel: Tid, t: Tid) {
    && Good(m) && m.s.mode == User && !m.s.needSchedule && m.s.running == kernel && kernel != t
    && m.s.ready == [t] && m.s.waiting == [] && m.s.count == STD_TS_QUANTUM && m.s.forbid == 0
    && m.s.threads.Keys == {kernel, t} && m.s.threads[t].pri == 15 && m.s.threads[t].uid == 0 && m.s.threads[t].port == []
    && Running(m.s).pri == 0 && Running(m.s).uid == 0
    && t in m.h.progress && m.h.progress[t] == Elsewhere
  }

  lemma BootStarts(kernel: Tid, t: Tid, f: nat) returns (r: Machine)
    requires kernel != t
    ensures Runs(Boot(kernel), StartCalls(t, f), r) && Started(r, kernel, t)
  {
    hide Good, Runs;
    var m, c1, c2 := Boot(kernel), Call(Create(t, 15, 0), f), Call(Permit, f);
    BootGood(kernel);
    GoodParts(m);
    var m1 := Advance(m, c1);
    AdvanceGood(m, c1);
    assert m1.s.ready == [t];
    r := Advance(m1, c2);
    AdvanceGood(m1, c2);
    RunsOne(m, c1, m1);
    RunsOne(m1, c2, r);
    RunsAppend(m, [c1], m1, [c2], r);
    assert [c1] + [c2] == StartCalls(t, f);
  }

  /** When the kernel thread's quantum ends, the keyboard thread runs. */
  lemma QuantumGivesWay(m: Machine, kernel: Tid, t: Tid, f: nat) returns (r: Machine)
    requires Started(m, kernel, t)
    ensures Runs(m, TickCalls(STD_TS_QUANTUM, f) + [Call(Interrupt(Timer), f)], r) && Runner(r, t, [], Elsewhere)
  {
    hide Step, Good, Advance, Runs, Inv;
    var c := Call(Interrupt(Timer), f);
    GoodParts(m);
    var n := TicksRun(m, STD_TS_QUANTUM, f);
    GoodParts(n);
    TickAdvances(n, f);
    LastTick(n.s, Frame(f));
    r := Advance(n, c);
    AdvanceGood(n, c);
    EntryThread(n.s, Interrupt(Timer), Frame(f), t);
    RunsOne(n, c, r);
    RunsAppend(m, TickCalls(STD_TS_QUANTUM, f), n, [c], r);
  }

  lemma RunsOne(m: Machine, c: Call, r: Machine)
    requires Admitted(m, c) && r == Advance(m, c)
    ensures Runs(m, [c], r)
  {
    hide Admitted, Advance;
    assert [c][1..] == [] && Runs(r, [], r);
  }

  /** A run from boot, of threads that keep to msg_retrieve(), in which a created thread blocks on a message. */
  lemma RaceFromBoot(kernel: Tid, t: Tid, data: Message, f: nat) returns (cs: seq<Call>, r: Machine)
    requires kernel != t && |data| <= MAX_MSG_SZ
    ensures Runs(Boot(kernel), cs, r) && cs != [] && cs[0].ev == Create(t, 15, 0)
    ensures t in r.s.waiting && t in r.s.threads && r.s.threads[t].port == [data] && t in r.h.raced
  {
    hide Runs, Good, Runner, Started, Advance;
    var m1 := BootStarts(kernel, t, f);
    var m2 := QuantumGivesWay(m1, kernel, t, f);
    r := RaceHappens(m2, t, Elsewhere, data, f);
    var ticks := TickCalls(STD_TS_QUANTUM, f) + [Call(Interrupt(Timer), f)];
    RunsAppend(Boot(kernel), StartCalls(t, f), m1, ticks, m2);
    RunsAppend(Boot(kernel), StartCalls(t, f) + ticks, m2, RaceCalls(t, data, f), r);
    cs := StartCalls(t, f) + ticks + RaceCalls(t, data, f);
    EveryRunBlocksExactly(kernel, cs, r, t);
  }

  // ----- runs of threads that block however they like

  /** The calls `cs` in turn, under no discipline. */
  ghost predicate Steps(s: State, cs: seq<Call>, r: State)
    decreases |cs|
  {
    if cs == [] then r == s
    else Closed(s) && EventOk(s, cs[0].ev) && Steps(Step(s, cs[0].ev, Frame(cs[0].frame)), cs[1..], r)
  }

  /** No thread is created while a reschedule is pending in user mode. */
  ghost predicate CreatesAtRest(s: State, cs: seq<Call>)
    decreases |cs|
  {
    cs != [] && Closed(s) && EventOk(s, cs[0].ev) ==>
      !(cs[0].ev.Create? && s.needSchedule) && CreatesAtRest(Step(s, cs[0].ev, Frame(cs[0].frame)), cs[1..])
  }

  /** A reschedule is pending only while nobody is there to be scheduled. */
  ghost predicate NobodyToSchedule(s: State) {
    s.mode == User && s.needSchedule ==> s.ready == []
  }

  /** The thread that ends the idle loop was the only one ready. */
  lemma IdleEndsAlone(s: State, ev: Event, frame: Context)
    requires Inv(s) && EventOk(s, ev) && SchedulerSteps.Entry(ev) && s.mode == Halted
    ensures var r := Step(s, ev, frame); r.mode == User ==> r.ready == []
  {
    hide Places, Sorted, Flags, RunFlag, Post, Restore;
    StepIs(s, ev, frame);
    var h := Handled(s, ev);
    IrqFrame(EnterKernel(s), ev.irq, 0);
    if ev.irq.Key? { WokenIsHead(s, ev.irq.target, ev.irq.data); }
    if h.ready != [] { RestoreReady(TakeHead(h.(reenter := 0, cpu := s.cpu))); }
  }

  lemma RestoreReady(s: State)
    requires Closed(s)
    ensures Restore(s).ready == s.ready
  {}

  /** Every event but a create_thread() under a pending reschedule keeps that, and the places of all threads. */
  lemma NobodyToScheduleStep(s: State, ev: Event, frame: Context)
    requires Inv(s) && EventOk(s, ev) && NobodyToSchedule(s) && !(ev.Create? && s.needSchedule)
    ensures !DoubleLink(s, ev) && Inv(Step(s, ev, frame)) && NobodyToSchedule(Step(s, ev, frame))
  {
    hide Places, Sorted, Flags, RunFlag;
    StepInv(s, ev, frame);
    if SchedulerSteps.Entry(ev) {
      PendingMeansIdled(s, ev, frame);
      if s.mode == Halted { IdleEndsAlone(s, ev, frame); }
    }
  }

  lemma {:induction false} RestfulRun(s: State, cs: seq<Call>, r: State)
    requires Inv(s) && NobodyToSchedule(s) && Steps(s, cs, r) && CreatesAtRest(s, cs)
    ensures Inv(r)
    decreases |cs|
  {
    hide Inv, Step, NobodyToSchedule;
    if cs != [] {
      NobodyToScheduleStep(s, cs[0].ev, Frame(cs[0].frame));
      RestfulRun(Step(s, cs[0].ev, Frame(cs[0].frame)), cs[1..], r);
    }
  }

  /**
   However threads block, with msg_retrieve() or by bare waits: in every run from boot in which
   no thread is created while a reschedule is pending, each thread is in exactly one place.
   */
  lemma EveryRestfulRunPartitions(kernel: Tid, cs: seq<Call>, r: State)
    requires Steps(Boot(kernel).s, cs, r) && CreatesAtRest(Boot(kernel).s, cs)
    ensures ExactlyOnePlace(r)
  {
    hide Inv;
    assert Inv(Boot(kernel).s) by { BootGood(kernel); GoodInv(Boot(kernel)); }
    RestfulRun(Boot(kernel).s, cs, r);
    InvMeansOnePlace(r);
  }

  lemma GoodInv(m: Machine)
    requires Good(m)
    ensures Inv(m.s)
  {}

  // ----- the wait that links its caller twice, in a run

  /** In a state with a reschedule pending, a more urgent thread created now makes the next wait double-link. */
  lemma CreateThenDoubleLink(s: State, t: Tid, pri: int, uid: nat, flags: Signals, frame: Context)
    requires Inv(s) && s.mode == User && s.needSchedule && s.forbid <= 0 && Running(s).uid == 0
    requires t !in s.threads && pri > Running(s).pri
    ensures var r := Step(s, Create(t, pri, uid), frame);
      && DoubleLink(r, Trap(Wait(flags)))
      && !ExactlyOnePlace(Step(r, Trap(Wait(flags)), frame))
  {
    var r := Step(s, Create(t, pri, uid), frame);
    assert Inv(r) by { CreateInv(s, t, pri, uid); }
    InsertHas(s.ready, Slot(Priorities(r.threads, s.ready), pri), t);
    HeadIsMax(r.threads, r.ready);
    DoubleLinkBreaks(r, flags, frame);
  }

  /** A bare wait with no reschedule pending: the first ready thread goes on, or the processor halts. */
  lemma WaitSwitches(s: State, flags: Signals, frame: Context)
    requires Inv(s) && s.mode == User && !s.needSchedule && Running(s).uid == 0
    ensures var r := Step(s, Trap(Wait(flags)), frame);
      && r.forbid == s.forbid
      && (s.ready == [] ==> r.mode == Halted)
      && (s.ready != [] ==> r.mode == User && r.running == s.ready[0] && r.ready == s.ready[1..] && !r.needSchedule)
  {}

  /** A post to a thread blocked on messages ends the idle loop with that thread and a reschedule pending. */
  lemma PostEndsIdle(s: State, t: Tid, data: Message, frame: Context)
    requires Inv(s) && s.mode == Halted && t in s.threads && ST_MESG in s.threads[t].sigWait && |data| <= MAX_MSG_SZ
    ensures var r := Step(s, Interrupt(Key(t, data)), frame);
      r.mode == User && r.running == t && r.needSchedule && r.forbid == s.forbid
  {
    hide Places, Sorted, RunFlag, Post, Restore, TakeHead, Flags;
    var ev := Interrupt(Key(t, data));
    StepIs(s, ev, frame);
    PendingMeansIdled(s, ev, frame);
    var s0 := EnterKernel(s);
    PostFrame(s0, t, data);
    PostReadies(s0, t, data);
    RestoreFrame(TakeHead(HandleIrq(s0, ev.irq).(reenter := 0, cpu := s.cpu)));
    TakeHeadFrame(HandleIrq(s0, ev.irq).(reenter := 0, cpu := s.cpu));
    RestoreForbid(TakeHead(HandleIrq(s0, ev.irq).(reenter := 0, cpu := s.cpu)));
  }

  lemma TakeHeadFrame(s: State)
    requires Closed(s) && s.ready != []
    ensures var r := TakeHead(s); r.running == s.ready[0] && r.needSchedule == s.needSchedule && r.forbid == s.forbid
  {}

  lemma RestoreForbid(s: State)
    requires Closed(s)
    ensures Restore(s).forbid == s.forbid
  {}

  /** The only thread to be ready after a post into an empty ready queue is the one it wakes. */
  lemma PostReadies(s: State, t: Tid, data: Message)
    requires Closed(s) && t in s.threads && s.ready == [] && ST_MESG in s.threads[t].sigWait && |data| <= MAX_MSG_SZ
    ensures Post(s, t, data).ready == [t]
  {
    var s1 := AppendMessage(s, t, data);
    assert ST_MESG in s1.threads[t].sigWait * {ST_MESG};
    assert Without([], t) == [];
  }

  lemma {:induction false} RunsAreSteps(m: Machine, cs: seq<Call>, r: Machine)
    requires Runs(m, cs, r)
    ensures Steps(m.s, cs, r.s)
    decreases |cs|
  {
    hide Step;
    if cs != [] { RunsAreSteps(Advance(m, cs[0]), cs[1..], r); }
  }

  /** One more call at the end. */
  lemma {:induction false} StepsThen(s: State, cs: seq<Call>, n: State, c: Call)
    requires Steps(s, cs, n) && Closed(n) && EventOk(n, c.ev)
    ensures Steps(s, cs + [c], Step(n, c.ev, Frame(c.frame)))
    decreases |cs|
  {
    hide Step, EventOk;
    if cs == [] {
      assert cs + [c] == [c] && [c][1..] == [];
      assert Steps(Step(s, c.ev, Frame(c.frame)), [], Step(s, c.ev, Frame(c.frame)));
    } else {
      assert (cs + [c])[1..] == cs[1..] + [c];
      StepsThen(Step(s, cs[0].ev, Frame(cs[0].frame)), cs[1..], n, c);
    }
  }

  /** The thread that blocked on messages, after the idle loop: woken, a reschedule pending. */
  ghost predicate Woken(s: State, t: Tid, others: set<Tid>) {
    && Closed(s) && Inv(s) && s.mode == User && s.running == t && s.needSchedule && s.forbid == 0
    && Running(s).uid == 0 && Running(s).pri == 15 && s.threads.Keys == others + {t}
  }

  /** Both threads block by bare waits, and a post wakes the second. */
  lemma BlockAndWake(m: Machine, kernel: Tid, t: Tid, data: Message, f: nat) returns (r: State)
    requires Started(m, kernel, t) && |data| <= MAX_MSG_SZ
    ensures Steps(m.s, [Call(Trap(Wait({})), f), Call(Trap(Wait({ST_MESG})), f), Call(Interrupt(Key(t, data)), f)], r)
    ensures Woken(r, t, {kernel})
  {
    hide Step, Inv, Steps, Good;
    var c1, c2, c3 := Call(Trap(Wait({})), f), Call(Trap(Wait({ST_MESG})), f), Call(Interrupt(Key(t, data)), f);
    GoodInv(m);
    GoodParts(m);
    var s1 := Step(m.s, c1.ev, Frame(f));
    StepInv(m.s, c1.ev, Frame(f));
    WaitSwitches(m.s, {}, Frame(f));
    EntryThread(m.s, c1.ev, Frame(f), t);
    var s2 := Step(s1, c2.ev, Frame(f));
    StepInv(s1, c2.ev, Frame(f));
    WaitSwitches(s1, {ST_MESG}, Frame(f));
    EntryThread(s1, c2.ev, Frame(f), t);
    r := Step(s2, c3.ev, Frame(f));
    StepInv(s2, c3.ev, Frame(f));
    PostEndsIdle(s2, t, data, Frame(f));
    EntryThread(s2, c3.ev, Frame(f), t);
    assert [] + [c1] == [c1] && [c1] + [c2] == [c1, c2] && [c1, c2] + [c3] == [c1, c2, c3];
    StepsNone(m.s);
    StepsThen(m.s, [], m.s, c1);
    StepsThen(m.s, [c1], s1, c2);
    StepsThen(m.s, [c1, c2], s2, c3);
  }

  lemma StepsNone(s: State)
    ensures Steps(s, [], s)
  {}

  lemma {:induction false} StepsAppend(s: State, cs: seq<Call>, n: State, ds: seq<Call>, r: State)
    requires Steps(s, cs, n) && Steps(n, ds, r)
    ensures Steps(s, cs + ds, r)
    decreases |cs|
  {
    hide Step, EventOk;
    if cs == [] {
      assert cs + ds == ds;
    } else {
      assert (cs + ds)[1..] == cs[1..] + ds;
      StepsAppend(Step(s, cs[0].ev, Frame(cs[0].frame)), cs[1..], n, ds, r);
    }
  }

  /**
   A run from boot that ends with a thread in two places: all threads block, a post wakes one,
   it creates a more urgent thread and waits again.
   */
  lemma DoubleLinkFromBoot(kernel: Tid, t: Tid, u: Tid, data: Message, f: nat) returns (cs: seq<Call>, n: State, r: State)
    requires kernel != t && u != kernel && u != t && |data| <= MAX_MSG_SZ
    ensures Steps(Boot(kernel).s, cs, n) && Inv(n) && DoubleLink(n, Trap(Wait({ST_MESG})))
    ensures Steps(Boot(kernel).s, cs + [Call(Trap(Wait({ST_MESG})), f)], r) && !ExactlyOnePlace(r)
  {
    hide Step, Inv, Steps, DoubleLink, Runs, Good;
    var m := BootStarts(kernel, t, f);
    RunsAreSteps(Boot(kernel), StartCalls(t, f), m);
    var s := BlockAndWake(m, kernel, t, data, f);
    var block := [Call(Trap(Wait({})), f), Call(Trap(Wait({ST_MESG})), f), Call(Interrupt(Key(t, data)), f)];
    StepsAppend(Boot(kernel).s, StartCalls(t, f), m.s, block, s);
    var c, w := Call(Create(u, 16, 0), f), Call(Trap(Wait({ST_MESG})), f);
    CreateThenDoubleLink(s, u, 16, 0, {ST_MESG}, Frame(f));
    n := Step(s, c.ev, Frame(f));
    CreateInv(s, u, 16, 0);
    StepIsCreate(s, u, Frame(f));
    StepsThen(Boot(kernel).s, StartCalls(t, f) + block, s, c);
    cs := StartCalls(t, f) + block + [c];
    r := Step(n, w.ev, Frame(f));
    StepsThen(Boot(kernel).s, cs, n, w);
  }

  lemma StepIsCreate(s: State, u: Tid, frame: Context)
    requires Closed(s) && s.mode == User && u !in s.threads
    ensures Step(s, Create(u, 16, 0), frame) == CreateThread(s, u, 16, 0) && CreateThread(s, u, 16, 0).mode == User
  {}
}
