/**
 What every kernel entry keeps: each thread is in exactly one place, both queues stay
 sorted, and the nesting counter and the scheduling flags are at rest in user mode.
 */
module SchedulerInvariant {
  import opened Common
  import opened Lists
  import opened Scheduler

  ghost predicate Sorted(ths: map<Tid, Thread>, q: seq<Tid>) {
    Known(ths, q) && Descending(Priorities(ths, q))
  }

  /** The queues hold every thread but the runner once, and the runner exactly when `parked`. */
  ghost predicate Places(tids: set<Tid>, running: Tid, ready: seq<Tid>, waiting: seq<Tid>, parked: bool) {
    && running in tids
    && Distinct(ready) && Distinct(waiting)
    && (forall t :: t in ready ==> t in tids && t !in waiting)
    && (forall t :: t in waiting ==> t in tids)
    && (forall t :: t in tids ==> t in ready || t in waiting || t == running)
    && (parked <==> running in ready || running in waiting)
  }

  /** Flags of the threads that follow from where they are. */
  ghost predicate Flags(ths: map<Tid, Thread>, waiting: seq<Tid>) {
    forall t :: t in ths ==>
      (ths[t].wait <==> t in waiting) && !ths[t].signal && (ST_MESG in ths[t].sigWait ==> t in waiting)
  }

  /** TS_RUN marks the runner, which needs no launch, or nobody. */
  ghost predicate RunFlag(ths: map<Tid, Thread>, running: Tid, on: bool) {
    forall t :: t in ths ==> (ths[t].run <==> on && t == running) && (ths[t].run ==> !ths[t].launch)
  }

  ghost predicate Core(s: State, parked: bool) {
    && Closed(s)
    && Places(s.threads.Keys, s.running, s.ready, s.waiting, parked)
    && Sorted(s.threads, s.ready) && Sorted(s.threads, s.waiting)
    && Flags(s.threads, s.waiting)
    && s.count >= -2
  }

  /** The kernel is not entered, or entered once and halted in the idle loop. */
  ghost predicate Rest(s: State) {
    && !s.needSwitch
    && (s.mode == User ==> s.reenter == WORDS - 1)
    && (s.mode == Halted ==> s.reenter == 0 && s.ready == [] && s.needSchedule)
  }

  ghost predicate Inv(s: State) {
    Core(s, s.mode == Halted) && RunFlag(s.threads, s.running, s.mode == User) && Rest(s)
  }

  /** schedule() would put the runner into the ready queue. */
  ghost predicate Preempts(s: State)
    requires Closed(s)
  {
    s.forbid <= 0 && s.ready != [] && (Running(s).pri < s.threads[s.ready[0]].pri || s.expired)
  }

  /** The wait() that links the runner into both queues: a caller can test all of it beforehand. */
  ghost predicate DoubleLink(s: State, ev: Event)
    requires Closed(s)
  {
    ev.Trap? && ev.call.Wait? && Running(s).uid == 0 && s.needSchedule && Preempts(s)
  }

  // ----- queue facts

  lemma InsertFacts(q: seq<Tid>, k: nat, t: Tid)
    requires k <= |q| && Distinct(q) && t !in q
    ensures Distinct(Insert(q, k, t))
    ensures forall x :: x in Insert(q, k, t) <==> x == t || x in q
  {
    var r := Insert(q, k, t);
    assert r[k] == t;
    forall x | x in q ensures x in r {
      var i :| 0 <= i < |q| && q[i] == x;
      assert r[if i < k then i else i + 1] == x;
    }
    forall i, j | 0 <= i < j < |r| ensures r[i] != r[j] {
      if i != k { assert r[i] == q[if i < k then i else i - 1]; }
      if j != k { assert r[j] == q[if j < k then j else j - 1]; }
    }
  }

  lemma DeleteFacts(q: seq<Tid>, k: nat)
    requires Distinct(q) && k < |q|
    ensures Distinct(Delete(q, k))
    ensures forall x :: x in Delete(q, k) <==> x in q && x != q[k]
  {
    var r := Delete(q, k);
    forall i, j | 0 <= i < j < |r| ensures r[i] != r[j] {
      assert r[i] == q[if i < k then i else i + 1];
      assert r[j] == q[if j < k then j else j + 1];
    }
    forall x ensures x in r <==> x in q && x != q[k] {
      if x in q && x != q[k] {
        var i :| 0 <= i < |q| && q[i] == x;
        assert r[if i < k then i else i - 1] == x;
      }
    }
  }

  lemma EnqueuedFacts(ths: map<Tid, Thread>, q: seq<Tid>, t: Tid)
    requires Known(ths, q) && t in ths && Distinct(q) && t !in q && Sorted(ths, q)
    ensures var r := Enqueued(ths, q, t);
      Distinct(r) && Sorted(ths, r) && forall x :: x in r <==> x == t || x in q
  {
    var ps, p := Priorities(ths, q), ths[t].pri;
    var k := Slot(ps, p);
    InsertFacts(q, k, t);
    SlotKeepsDescending(ps, p);
    assert Priorities(ths, Enqueued(ths, q, t)) == ps[..k] + [p] + ps[k..];
  }

  lemma DeleteSorted(ths: map<Tid, Thread>, q: seq<Tid>, k: nat)
    requires Sorted(ths, q) && k < |q|
    ensures Sorted(ths, Delete(q, k))
  {
    assert Known(ths, Delete(q, k));
    assert Priorities(ths, Delete(q, k)) == Priorities(ths, q)[..k] + Priorities(ths, q)[k + 1..];
  }

  /** remove() takes the one occurrence out and keeps the order of the rest. */
  lemma {:induction false} WithoutIsDelete(q: seq<Tid>, k: nat)
    requires Distinct(q) && k < |q|
    ensures Without(q, q[k]) == Delete(q, k)
  {
    if k > 0 {
      WithoutIsDelete(q[1..], k - 1);
      assert Delete(q, k) == [q[0]] + Delete(q[1..], k - 1);
    }
  }

  lemma {:induction false} WithoutAbsent(q: seq<Tid>, t: Tid)
    requires t !in q
    ensures Without(q, t) == q
  {
    if q != [] { WithoutAbsent(q[1..], t); }
  }

  lemma WithoutFacts(ths: map<Tid, Thread>, q: seq<Tid>, t: Tid)
    requires Distinct(q) && Sorted(ths, q) && t in q
    ensures var r := Without(q, t);
      Distinct(r) && Sorted(ths, r) && forall x :: x in r <==> x in q && x != t
  {
    var k :| 0 <= k < |q| && q[k] == t;
    WithoutIsDelete(q, k);
    DeleteFacts(q, k);
    DeleteSorted(ths, q, k);
  }

  /** Rewriting threads without touching priorities keeps a queue sorted. */
  lemma SortedFrame(ths: map<Tid, Thread>, ths': map<Tid, Thread>, q: seq<Tid>)
    requires Sorted(ths, q)
    requires forall t :: t in ths ==> t in ths' && ths'[t].pri == ths[t].pri
    ensures Sorted(ths', q)
  {
    assert Known(ths', q);
    assert Priorities(ths', q) == Priorities(ths, q);
  }

  /** The head of the ready queue becomes the runner. */
  lemma HeadRuns(tids: set<Tid>, running: Tid, ready: seq<Tid>, waiting: seq<Tid>)
    requires Places(tids, running, ready, waiting, true) && ready != []
    ensures Places(tids, ready[0], ready[1..], waiting, false)
  {
    DeleteFacts(ready, 0);
    assert Delete(ready, 0) == ready[1..] && ready[0] in ready;
  }

  // ----- what the handlers keep

  /** Updates of a thread that touch neither its priority nor its flags. */
  lemma PlainCore(s: State, t: Tid, th: Thread, parked: bool)
    requires Core(s, parked) && t in s.threads && th.pri == s.threads[t].pri
    requires th.wait == s.threads[t].wait && !th.signal && th.sigWait == s.threads[t].sigWait
    ensures Core(SetThread(s, t, th), parked)
  {
    var r := SetThread(s, t, th);
    assert r.threads.Keys == s.threads.Keys;
    SortedFrame(s.threads, r.threads, s.ready);
    SortedFrame(s.threads, r.threads, s.waiting);
  }

  lemma MakeReadyCore(s: State, t: Tid, flags: Signals, parked: bool)
    requires Core(s, parked) && t in s.waiting && ST_MESG in flags
    ensures Core(MakeReady(s, t, flags), parked)
  {
    var r := MakeReady(s, t, flags);
    WithoutFacts(s.threads, s.waiting, t);
    WithoutAbsent(s.ready, t);
    EnqueuedFacts(s.threads, s.ready, t);
    assert r.threads.Keys == s.threads.Keys;
    assert Places(s.threads.Keys, s.running, r.ready, r.waiting, parked);
    SortedFrame(s.threads, r.threads, r.ready);
    SortedFrame(s.threads, r.threads, r.waiting);
  }

  lemma AppendCore(s: State, t: Tid, data: Message, parked: bool)
    requires Core(s, parked) && t in s.threads
    ensures Core(AppendMessage(s, t, data), parked)
  {
    var th := s.threads[t];
    PlainCore(s, t, th.(port := th.port + [data], numMsg := (th.numMsg + 1) % 256), parked);
  }

  lemma PostCore(s: State, t: Tid, data: Message, parked: bool)
    requires Core(s, parked) && t in s.threads
    ensures Core(Post(s, t, data), parked)
  {
    var s1 := AppendMessage(s, t, data);
    AppendCore(s, t, data, parked);
    if s1.threads[t].sigWait * {ST_MESG} != {} {
      assert ST_MESG in s1.threads[t].sigWait;
      MakeReadyCore(s1, t, {ST_MESG}, parked);
    }
  }

  lemma WaitCore(s: State, flags: Signals)
    requires Core(s, false)
    ensures Core(WaitForFlags(s, flags), true)
  {
    var r := WaitForFlags(s, flags);
    EnqueuedFacts(s.threads, s.waiting, s.running);
    assert r.threads.Keys == s.threads.Keys;
    SortedFrame(s.threads, r.threads, r.ready);
    SortedFrame(s.threads, r.threads, r.waiting);
  }

  lemma PreemptCore(s: State)
    requires Core(s, false)
    ensures Core(s.(ready := Enqueued(s.threads, s.ready, s.running), needSwitch := true), true)
  {
    EnqueuedFacts(s.threads, s.ready, s.running);
  }

  lemma ScheduleCore(s: State)
    requires Core(s, false) && !s.needSwitch
    ensures var r := Schedule(s); Core(r, r.needSwitch)
  {
    PreemptCore(s);
  }

  lemma ResumeCore(s: State)
    requires Core(s, true) && RunFlag(s.threads, s.running, false) && s.ready != []
    ensures var r := Resume(s); Core(r, false) && RunFlag(r.threads, r.running, true)
  {
    var r := Resume(s);
    HeadRuns(s.threads.Keys, s.running, s.ready, s.waiting);
    DeleteSorted(s.threads, s.ready, 0);
    assert Delete(s.ready, 0) == s.ready[1..] && s.ready[0] in s.ready;
    assert r.threads.Keys == s.threads.Keys;
    SortedFrame(s.threads, r.threads, r.ready);
    SortedFrame(s.threads, r.threads, r.waiting);
  }

  lemma SwitchInInv(s: State)
    requires Core(s, true) && RunFlag(s.threads, s.running, false) && s.reenter == 0 && !s.needSwitch
    ensures Inv(SwitchIn(s))
  {
    if s.ready != [] { ResumeCore(s); }
  }

  lemma SwitchOutCore(s: State, frame: Context)
    requires Core(s, true) && RunFlag(s.threads, s.running, true)
    ensures var r := SwitchOut(s, frame); Core(r, true) && RunFlag(r.threads, r.running, false)
  {
    var th := Running(s);
    PlainCore(s, s.running, th.(run := false, kernelEsp := if th.run then frame else th.kernelEsp), true);
  }

  // ----- one step

  /** The fields interrupt handlers leave alone. */
  ghost predicate SameFrame(s: State, r: State) {
    && r.running == s.running && r.needSwitch == s.needSwitch && r.reenter == s.reenter && r.mode == s.mode
    && r.quantum == s.quantum && r.forbid == s.forbid && r.cpu == s.cpu
  }

  ghost predicate OnlyPortAndSignals(a: Thread, b: Thread) {
    b == a.(port := b.port, numMsg := b.numMsg, sigWait := b.sigWait, sigRecvd := b.sigRecvd, wait := b.wait, ready := b.ready)
  }

  lemma MakeReadyFrame(s: State, t: Tid, flags: Signals)
    requires Closed(s) && t in s.threads
    ensures var r := MakeReady(s, t, flags);
      && SameFrame(s, r) && r.count == s.count && r.expired == s.expired && r.needSchedule
      && OnlyPortAndSignals(s.threads[t], r.threads[t]) && r.threads == s.threads[t := r.threads[t]]
    ensures forall k: nat :: MakeReady(s.(reenter := k), t, flags) == MakeReady(s, t, flags).(reenter := k)
  {}

  /** A thread after it was signalled ST_MESG. */
  ghost function Notified(th: Thread): Thread {
    if ST_MESG !in th.sigWait then th
    else th.(sigRecvd := th.sigRecvd + {ST_MESG}, sigWait := th.sigWait - {ST_MESG}, wait := false, ready := true)
  }

  /** A thread after a message was posted to it. */
  ghost function Posted(th: Thread, data: Message): Thread {
    if |data| > MAX_MSG_SZ then th
    else Notified(th.(port := th.port + [data], numMsg := (th.numMsg + 1) % 256))
  }

  lemma SignalFrame(s: State, t: Tid)
    requires Closed(s) && t in s.threads
    ensures var r, th := Signal(s, t, {ST_MESG}), s.threads[t];
      && SameFrame(s, r) && r.count == s.count && r.expired == s.expired && (s.needSchedule ==> r.needSchedule)
      && r.threads == s.threads[t := Notified(th)]
      && r.waiting == if ST_MESG in th.sigWait then Without(s.waiting, t) else s.waiting
  {
    var w := s.threads[t].sigWait;
    if ST_MESG in w {
      assert ST_MESG in w * {ST_MESG};
    } else {
      assert w * {ST_MESG} == {};
      assert s.threads == s.threads[t := s.threads[t]];
    }
    MakeReadyFrame(s, t, {ST_MESG});
  }

  lemma PostFrame(s: State, t: Tid, data: Message)
    requires Closed(s) && t in s.threads
    ensures var r, th := Post(s, t, data), s.threads[t];
      && SameFrame(s, r) && r.count == s.count && r.expired == s.expired && (s.needSchedule ==> r.needSchedule)
      && r.threads == s.threads[t := Posted(th, data)] && OnlyPortAndSignals(th, Posted(th, data))
      && r.waiting == if |data| <= MAX_MSG_SZ && ST_MESG in th.sigWait then Without(s.waiting, t) else s.waiting
  {
    hide Signal, Notified, Without, AppendMessage, SameFrame, OnlyPortAndSignals;
    PostedFrame(s.threads[t], data);
    if |data| <= MAX_MSG_SZ {
      AcceptedFrame(s, t, data);
    } else {
      assert s.threads == s.threads[t := s.threads[t]];
      assert SameFrame(s, s) by { SameFrameReflexive(s); }
    }
  }

  lemma SameFrameReflexive(s: State)
    ensures SameFrame(s, s)
  {}

  lemma AcceptedFrame(s: State, t: Tid, data: Message)
    requires Closed(s) && t in s.threads
    ensures var r, th := Signal(AppendMessage(s, t, data), t, {ST_MESG}), s.threads[t];
      && SameFrame(s, r) && r.count == s.count && r.expired == s.expired && (s.needSchedule ==> r.needSchedule)
      && r.threads == s.threads[t := Notified(th.(port := th.port + [data], numMsg := (th.numMsg + 1) % 256))]
      && r.waiting == if ST_MESG in th.sigWait then Without(s.waiting, t) else s.waiting
  {
    hide *;
    AppendFrame(s, t, data);
    var s1, th := AppendMessage(s, t, data), s.threads[t];
    var a := th.(port := th.port + [data], numMsg := (th.numMsg + 1) % 256);
    assert s1 == s.(threads := s.threads[t := a]);
    var r := Signal(s1, t, {ST_MESG});
    SignalFrame(s1, t);
    assert s1.threads[t] == a;
    StoreTwice(s.threads, t, a, Notified(a));
    SameFrameStore(s, s.threads[t := a], r);
  }

  lemma SameFrameStore(s: State, ths: map<Tid, Thread>, r: State)
    requires SameFrame(s.(threads := ths), r)
    ensures SameFrame(s, r)
  {}

  lemma StoreTwice(ths: map<Tid, Thread>, t: Tid, a: Thread, b: Thread)
    ensures ths[t := a][t := b] == ths[t := b]
  {}

  lemma PostedFrame(th: Thread, data: Message)
    ensures OnlyPortAndSignals(th, Posted(th, data))
  {}

  lemma AppendFrame(s: State, t: Tid, data: Message)
    requires Closed(s) && t in s.threads
    ensures var r, th := AppendMessage(s, t, data), s.threads[t];
      r == s.(threads := s.threads[t := th.(port := th.port + [data], numMsg := (th.numMsg + 1) % 256)])
    ensures Closed(AppendMessage(s, t, data))
  {}

  lemma PostAtDepth(s: State, t: Tid, data: Message, depth: nat)
    requires Closed(s) && t in s.threads
    ensures Post(s.(reenter := depth), t, data) == Post(s, t, data).(reenter := depth)
  {
    var a, b := AppendMessage(s, t, data), AppendMessage(s.(reenter := depth), t, data);
    assert b == a.(reenter := depth);
    SignalAtDepth(a, t, {ST_MESG}, depth);
  }

  lemma SignalAtDepth(s: State, t: Tid, flags: Signals, depth: nat)
    requires Closed(s) && t in s.threads
    ensures Signal(s.(reenter := depth), t, flags) == Signal(s, t, flags).(reenter := depth)
  {
    MakeReadyFrame(s, t, flags);
  }

  /** Interrupt handlers neither look at nor change the nesting depth, the runner and the mode. */
  lemma IrqFrame(s: State, irq: Irq, depth: nat)
    requires Closed(s) && (irq.Key? ==> irq.target in s.threads)
    ensures HandleIrq(s.(reenter := depth), irq) == HandleIrq(s, irq).(reenter := depth)
    ensures SameFrame(s, HandleIrq(s, irq))
  {
    match irq
    case Timer =>
    case Key(t, data) => PostAtDepth(s, t, data, depth); PostFrame(s, t, data);
    case KeyRelease =>
  }

  lemma PostRunFlag(s: State, t: Tid, data: Message, on: bool)
    requires Closed(s) && t in s.threads && RunFlag(s.threads, s.running, on)
    ensures RunFlag(Post(s, t, data).threads, s.running, on)
  {
    PostFrame(s, t, data);
  }

  lemma IrqCore(s: State, irq: Irq, parked: bool, on: bool)
    requires Core(s, parked) && (irq.Key? ==> irq.target in s.threads) && RunFlag(s.threads, s.running, on)
    ensures var r := HandleIrq(s, irq);
      Core(r, parked) && SameFrame(s, r) && RunFlag(r.threads, s.running, on)
  {
    hide Post, Places, Sorted, Flags, RunFlag;
    IrqFrame(s, irq, 0);
    if irq.Key? {
      PostCore(s, irq.target, irq.data, parked);
      PostRunFlag(s, irq.target, irq.data, on);
    }
  }

  lemma DispatchInv(s: State, frame: Context)
    requires Core(s, s.needSwitch) && RunFlag(s.threads, s.running, true) && s.reenter == 0 && s.mode == User
    ensures Inv(Dispatch(s, frame))
  {
    if s.needSwitch {
      SwitchOutCore(s, frame);
      SwitchInInv(SwitchOut(s, frame));
    }
  }

  /** From the end of a handler at depth one to the next rest point. */
  lemma ExitInv(s: State, frame: Context)
    requires Core(s, s.needSwitch) && RunFlag(s.threads, s.running, true) && s.reenter == 0 && s.mode == User
    requires s.needSwitch && s.needSchedule ==> !Running(s).signal && !Preempts(s)
    ensures Inv(ExitKernel(s, frame))
  {
    if s.needSchedule && !s.needSwitch { ScheduleCore(s.(needSchedule := false)); }
    DispatchInv(ScheduleIfNeeded(s), frame);
  }

  lemma TrapInv(s: State, call: Syscall, frame: Context)
    requires Inv(s) && s.mode == User && !DoubleLink(s, Trap(call))
    ensures Inv(Step(s, Trap(call), frame))
  {
    var s0 := EnterKernel(s);
    assert Core(s0, false) && RunFlag(s0.threads, s0.running, true) && s0.reenter == 0;
    assert Running(s0) == Running(s) && (Preempts(s0) <==> Preempts(s));
    var h := HandleTrap(s0, call);
    assert h == if Running(s).uid == 0 then SystemCall(s0, call) else s0;
    if Running(s).uid == 0 { SystemCallCore(s0, call); }
    assert Inv(ExitKernel(h, frame)) by { ExitInv(h, frame); }
    assert Step(s, Trap(call), frame) == ExitKernel(h, frame);
  }

  lemma SystemCallCore(s: State, call: Syscall)
    requires Core(s, false) && !s.needSwitch && RunFlag(s.threads, s.running, true)
    ensures var r := SystemCall(s, call);
      && Core(r, r.needSwitch) && RunFlag(r.threads, s.running, true)
      && (r.needSwitch <==> call.Wait?) && r.needSchedule == s.needSchedule && r.reenter == s.reenter
      && r.mode == s.mode && r.running == s.running && !Running(r).signal && (Preempts(r) <==> Preempts(s))
  {
    match call
    case Wait(flags) => WaitCore(s, flags);
    case Cycle =>
      var th := Running(s);
      if th.port != [] { PlainCore(s, s.running, th.(port := th.port[1..]), false); }
    case _ =>
  }

  lemma IrqInv(s: State, irq: Irq, frame: Context)
    requires Inv(s) && s.mode == User && EventOk(s, Interrupt(irq))
    ensures Inv(Step(s, Interrupt(irq), frame))
  {
    var s0 := EnterKernel(s);
    IrqCore(s0, irq, false, true);
    ExitInv(HandleIrq(s0, irq), frame);
  }

  lemma NestedExit(s: State, frame: Context)
    requires Closed(s) && s.reenter == 1
    ensures ExitKernel(s, frame) == s.(reenter := 0, cpu := frame)
  {}

  /** A nested interrupt is at depth two: it never schedules and never switches. */
  lemma NestedIs(s: State, irq: Irq)
    requires Closed(s) && s.reenter == 0 && EventOk(s, Interrupt(irq))
    ensures ExitKernel(HandleIrq(EnterKernel(s), irq), s.cpu) == HandleIrq(s, irq)
  {
    assert EnterKernel(s) == s.(reenter := 1);
    var h := HandleIrq(s.(reenter := 1), irq);
    var r := HandleIrq(s, irq);
    assert h == r.(reenter := 1) by { IrqFrame(s, irq, 1); }
    assert r.reenter == 0 && r.cpu == s.cpu by { IrqFrame(s, irq, 1); }
    assert ExitKernel(h, s.cpu) == r by {
      NestedExit(h, s.cpu);
    }
  }

  lemma WakeIs(s: State, irq: Irq)
    requires Closed(s) && s.reenter == 0 && EventOk(s, Interrupt(irq))
    ensures Wake(s, irq) == SwitchIn(HandleIrq(s, irq))
  {
    hide SwitchIn, ExitKernel, HandleIrq;
    NestedIs(s, irq);
  }

  lemma WakeInv(s: State, irq: Irq)
    requires Inv(s) && s.mode == Halted && EventOk(s, Interrupt(irq))
    ensures Inv(Wake(s, irq))
  {
    WakeIs(s, irq);
    IrqCore(s, irq, true, false);
    SwitchInInv(HandleIrq(s, irq));
  }

  lemma CreateInv(s: State, t: Tid, pri: int, uid: nat)
    requires Inv(s) && EventOk(s, Create(t, pri, uid))
    ensures Inv(CreateThread(s, t, pri, uid))
  {
    var th := Thread(pri, uid, false, false, true, false, true, {}, {}, Nowhere, [], 0);
    var ths := s.threads[t := th];
    SortedFrame(s.threads, ths, s.ready);
    SortedFrame(s.threads, ths, s.waiting);
    EnqueuedFacts(ths, s.ready, t);
  }

  /** Every event but the double-linking wait() keeps the invariant. */
  lemma StepInv(s: State, ev: Event, frame: Context)
    requires Inv(s) && EventOk(s, ev) && !DoubleLink(s, ev)
    ensures Inv(Step(s, ev, frame))
  {
    match ev
    case Interrupt(irq) => if s.mode == Halted { WakeInv(s, irq); } else { IrqInv(s, irq, frame); }
    case Trap(call) => TrapInv(s, call, frame);
    case Create(t, pri, uid) => CreateInv(s, t, pri, uid);
    case Forbid =>
    case Permit =>
  }
}
