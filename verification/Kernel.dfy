/**
 The scheduler in place: the fields of sys_base, the thread descriptors, and the two
 queues and all message ports as linked lists in one word memory.  Every method is
 proved to take the abstract state where the step of the same name in Scheduler.dfy does.
 */
module Kernel {
  import opened Common
  import opened Lists
  import opened KernelLayout
  import opened KernelImage
  import S = Scheduler
  import I = SchedulerInvariant
  import R = SchedulerRuns
  import E = SchedulerEffects
  import W = ListWords

  /** The halted processor handles interrupts one after another until a thread is ready. */
  ghost function Idle(s: S.State, irqs: seq<S.Irq>): (r: (S.State, nat))
    requires S.Closed(s) && forall i :: 0 <= i < |irqs| && irqs[i].Key? ==> irqs[i].target in s.threads
    ensures S.Keeps(s, r.0) && r.1 <= |irqs|
    ensures r.0.mode == S.User || r.1 == |irqs|
    decreases |irqs|
  {
    if s.mode == S.User || irqs == [] then (s, 0)
    else
      var (s', n) := Idle(S.Wake(s, irqs[0]), irqs[1..]);
      (s', n + 1)
  }

  /** The head of the ready queue, its priority word and the runner's. */
  lemma PriorityWord(i: Image, t: Addr)
    requires ImageOk(i) && t in i.ds
    ensures NULL < t && t + PRI < |i.m| && Abstract(i)[t].pri == i.m[t + PRI]
  {
    hide World, Headers, Members, Pool;
    assert Abstract(i)[t] == ThreadAt(i, t);
  }

  lemma HeaderNotNull(m: seq<int>, ls: map<Addr, seq<Addr>>, h: Addr)
    requires World(m, ls) && h in ls
    ensures NULL < h
  {}

  lemma HeadWord(i: Image)
    requires ImageOk(i)
    ensures i.ready in i.ls && NULL < i.ready
    ensures var q := i.ls[i.ready];
      q != [] ==> q[0] in i.ds && NULL < q[0] && q[0] + PRI < |i.m| && Abstract(i)[q[0]].pri == i.m[q[0] + PRI]
  {
    hide Abstract, ImageOk, World, Threads, Headers;
    LayoutParts(i);
    HeaderNotNull(i.m, i.ls, i.ready);
    QueueKnown(i, i.ready);
    var q := i.ls[i.ready];
    if q != [] {
      assert q[0] in q;
      PriorityWord(i, q[0]);
    }
  }

  lemma ScheduleIs(s: S.State)
    requires S.Closed(s)
    ensures S.Schedule(s) ==
      if s.forbid <= 0 && (S.Running(s).signal || I.Preempts(s)) then
        s.(ready := S.Enqueued(s.threads, s.ready, s.running), needSwitch := true)
      else s
  {}

  lemma PortEmpty(i: Image, t: Addr)
    requires ImageOk(i) && t in i.ds
    ensures PortList(i, t) == [] <==> Abstract(i)[t].port == []
  {
    hide ImageOk, Abstract;
    assert Abstract(i)[t].port == Bodies(PortList(i, t), i.bodies);
  }

  lemma RemoveIs(s: S.State)
    requires S.Closed(s)
    ensures var th := S.Running(s);
      S.RemoveMessage(s) ==
      if th.port == [] then s else s.(threads := s.threads[s.running := th.(port := th.port[1..])])
  {}

  ghost function Appended(th: S.Thread, data: S.Message): S.Thread {
    th.(port := th.port + [data], numMsg := (th.numMsg + 1) % 256)
  }

  lemma AppendIs(s: S.State, t: Addr, data: S.Message)
    requires S.Closed(s) && t in s.threads
    ensures S.AppendMessage(s, t, data) == s.(threads := s.threads[t := Appended(s.threads[t], data)])
  {}

  lemma PostIs(s: S.State, t: Addr, data: S.Message)
    requires S.Closed(s) && t in s.threads
    ensures S.Post(s, t, data) ==
      if |data| > S.MAX_MSG_SZ then s else S.Signal(S.AppendMessage(s, t, data), t, {S.ST_MESG})
  {}

  lemma CountedIs(d: Descriptor, pri: int, port: seq<S.Message>, n: nat)
    ensures ThreadOf(d.(numMsg := n), pri, port) == ThreadOf(d, pri, port).(numMsg := n)
    ensures ThreadOf(d, pri, port).numMsg == d.numMsg
  {}

  /** An interrupt handler leaves the runner where it was. */
  lemma NotParked(s: S.State, irq: S.Irq, parked: bool)
    requires I.Core(s, parked) && (irq.Key? ==> irq.target in s.threads)
    ensures var s1 := S.EnterKernel(s);
      var r := S.HandleIrq(s1, irq);
      && I.Core(s1, parked) && r.reenter == s1.reenter && r.running == s.running
      && (!parked ==> r.running !in r.waiting && r.running !in r.ready)
  {
    var s1 := S.EnterKernel(s);
    assert I.Core(s1, parked);
    I.IrqFrame(s1, irq, 0);
    if irq.Key? { I.PostCore(s1, irq.target, irq.data, parked); }
  }

  /** After a system call either the runner is in no queue or schedule() leaves it alone. */
  lemma TrapMaySchedule(s: S.State, call: S.Syscall)
    requires I.Inv(s) && s.mode == S.User && !I.DoubleLink(s, S.Trap(call))
    ensures s.running !in s.waiting && s.running !in s.ready
    ensures var r := S.HandleTrap(S.EnterKernel(s), call);
      r.needSchedule && (S.Running(r).signal || I.Preempts(r)) ==> r.running !in r.waiting && r.running !in r.ready
  {
    var s0 := S.EnterKernel(s);
    if S.Running(s).uid == 0 { I.SystemCallCore(s0, call); }
  }

  /** The state when switch_threads() reaches its loop. */
  ghost function Stopped(s: S.State): (r: S.State)
    requires S.Closed(s)
    ensures S.Keeps(s, r)
  {
    S.SetThread(s.(needSwitch := false, expired := false), s.running, S.Running(s).(run := false))
  }

  /** Between the evaluations of the idle loop's condition. */
  ghost predicate Idles(s: S.State) {
    I.Core(s, true) && I.RunFlag(s.threads, s.running, false) && s.reenter == 0 && !s.needSwitch
  }

  ghost predicate Targets(s: S.State, irqs: seq<S.Irq>) {
    forall i :: 0 <= i < |irqs| && irqs[i].Key? ==> irqs[i].target in s.threads
  }

  function Later(p: (S.State, nat), k: nat): (S.State, nat) {
    (p.0, p.1 + k)
  }

  /** The halted processor. */
  ghost function Halt(h: S.State): S.State {
    h.(needSchedule := true, mode := S.Halted)
  }

  /** A nested interrupt, from the halt instruction back to the loop's condition. */
  ghost function Nested(w: S.State, irq: S.Irq): (r: S.State)
    requires S.Closed(w) && (irq.Key? ==> irq.target in w.threads)
    ensures S.Keeps(w, r)
  {
    S.ExitKernel(S.HandleIrq(S.EnterKernel(w), irq), w.cpu)
  }

  /** The idle loop's invariant: after `used` interrupts, what remains leads to `end`. */
  ghost predicate Idling(s: S.State, irqs: seq<S.Irq>, used: nat, end: (S.State, nat)) {
    && Idles(s) && Targets(s, irqs) && used <= |irqs|
    && Later(Idle(S.SwitchIn(s), irqs[used..]), used) == end
  }

  lemma IdlingStarts(s: S.State, irqs: seq<S.Irq>)
    requires I.Core(s, true) && I.RunFlag(s.threads, s.running, true) && s.reenter == 0 && Targets(s, irqs)
    ensures Idling(Stopped(s), irqs, 0, Idle(S.SwitchIn(Stopped(s)), irqs))
  {
    hide S.SwitchIn, Idle;
    I.PlainCore(s, s.running, S.Running(s).(run := false), true);
    assert irqs[0..] == irqs;
  }

  lemma IdlingEnds(h: S.State, irqs: seq<S.Irq>, used: nat, end: (S.State, nat))
    requires Idling(h, irqs, used, end) && h.ready != []
    ensures used <= |irqs| && S.Keeps(h, S.TakeHead(h)) && end == (S.Restore(S.TakeHead(h)), used)
  {
    hide I.Core, I.RunFlag, S.TakeHead, S.Restore, S.Known;
    ClosedCore(h);
    RestoredRuns(S.TakeHead(h));
  }

  lemma RestoredRuns(s: S.State)
    requires S.Closed(s)
    ensures S.Restore(s).mode == S.User
  {}

  lemma ClosedCore(h: S.State)
    requires I.Core(h, true)
    ensures S.Closed(h)
  {}

  lemma IdlingStays(h: S.State, irqs: seq<S.Irq>, end: (S.State, nat))
    requires Idling(h, irqs, |irqs|, end) && h.ready == []
    ensures end == (Halt(h), |irqs|)
  {
    assert irqs[|irqs|..] == [];
  }

  /** One interrupt taken at the halt instruction. */
  lemma IdlingGoesOn(h: S.State, irqs: seq<S.Irq>, used: nat, end: (S.State, nat))
    requires Idling(h, irqs, used, end) && h.ready == [] && used < |irqs|
    ensures var w := Halt(h);
      && I.Core(w, true) && w.reenter == 0 && w.mode == S.Halted
      && (irqs[used].Key? ==> irqs[used].target in w.threads)
      && Idle(Nested(w, irqs[used]), []) == (Nested(w, irqs[used]), 0)
      && Idling(Nested(w, irqs[used]), irqs, used + 1, end)
  {
    hide I.Core, I.RunFlag, S.HandleIrq, S.EnterKernel, S.ExitKernel, S.SwitchIn;
    var w := Halt(h);
    HaltCore(h);
    I.NestedIs(w, irqs[used]);
    I.IrqCore(w, irqs[used], true, false);
    IdleUnfolds(w, irqs, used);
  }

  lemma HaltCore(h: S.State)
    requires Idles(h) && h.ready == []
    ensures Halt(h) == S.SwitchIn(h) && I.Core(Halt(h), true) && I.RunFlag(Halt(h).threads, h.running, false)
  {
    I.SwitchInInv(h);
  }

  lemma WakeNested(w: S.State, irq: S.Irq)
    requires S.Closed(w) && (irq.Key? ==> irq.target in w.threads)
    ensures S.Wake(w, irq) == S.SwitchIn(Nested(w, irq))
  {
    hide S.SwitchIn, S.ExitKernel, S.EnterKernel, S.HandleIrq;
  }

  lemma IdleUnfolds(w: S.State, irqs: seq<S.Irq>, used: nat)
    requires S.Closed(w) && w.mode == S.Halted && Targets(w, irqs) && used < |irqs|
    ensures Idle(w, irqs[used..]) == Later(Idle(S.SwitchIn(Nested(w, irqs[used])), irqs[used + 1..]), 1)
  {
    hide S.SwitchIn, S.ExitKernel, S.EnterKernel, S.HandleIrq, S.Wake, Nested, S.Closed;
    WakeNested(w, irqs[used]);
    assert irqs[used..][0] == irqs[used] && irqs[used..][1..] == irqs[used + 1..];
  }

  lemma DispatchIs(s: S.State, frame: S.Context)
    requires S.Closed(s) && s.reenter == 0 && s.needSwitch
    ensures S.Dispatch(s, frame) == S.SwitchIn(Stopped(Saved(s, frame)))
  {
    hide S.SwitchIn;
    var th := S.Running(s);
    I.StoreTwice(s.threads, s.running, th.(kernelEsp := frame), th.(run := false, kernelEsp := frame));
    assert S.SwitchOut(s, frame) == Stopped(Saved(s, frame));
  }

  /** The stack pointer saved, if the interrupted context is the runner's. */
  ghost function Saved(s: S.State, frame: S.Context): (r: S.State)
    requires S.Closed(s)
    ensures S.Keeps(s, r)
  {
    if S.Running(s).run then S.SetThread(s, s.running, S.Running(s).(kernelEsp := frame)) else s
  }

  /** What dispatch needs to know when an interrupt handler returns. */
  lemma AfterIrq(s: S.State, irq: S.Irq, parked: bool)
    requires S.Closed(s) && (irq.Key? ==> irq.target in s.threads)
    requires if parked then I.Core(s, true) && s.reenter == 0 else I.Inv(s) && s.mode == S.User
    ensures I.Core(s, parked)
    ensures var r := S.ScheduleIfNeeded(S.HandleIrq(S.EnterKernel(s), irq));
      && S.Keeps(s, r) && r.mode == s.mode && (parked ==> r.reenter == 1)
      && (r.reenter == 0 && r.needSwitch ==> I.Core(r, true) && I.RunFlag(r.threads, r.running, true))
  {
    hide I.Places, I.Sorted, I.Flags, I.RunFlag, S.HandleIrq;
    NotParked(s, irq, parked);
    var s1 := S.EnterKernel(s);
    I.IrqFrame(s1, irq, 0);
    if !parked {
      assert I.RunFlag(s1.threads, s1.running, true);
      I.IrqCore(s1, irq, false, true);
      AfterHandler(S.HandleIrq(s1, irq));
    }
  }

  lemma AfterHandler(h: S.State)
    requires I.Core(h, h.needSwitch) && I.RunFlag(h.threads, h.running, true)
    requires h.needSwitch && h.needSchedule ==> !S.Running(h).signal && !I.Preempts(h)
    ensures var r := S.ScheduleIfNeeded(h);
      && S.Keeps(h, r) && r.mode == h.mode && r.reenter == h.reenter
      && (r.needSwitch ==> I.Core(r, true) && I.RunFlag(r.threads, r.running, true))
  {
    hide I.Places, I.Sorted, I.Flags, I.RunFlag, S.Enqueued;
    if h.needSchedule && !h.needSwitch { I.ScheduleCore(h.(needSchedule := false)); }
  }

  ghost function NewThread(pri: int, uid: nat): S.Thread {
    S.Thread(pri, uid, false, false, true, false, true, {}, {}, S.Nowhere, [], 0)
  }

  lemma FreshRoom(i: Image, t: Addr, pri: int)
    requires ImageOk(i) && FreshThread(i.m, i.ls, i.ds.Keys, i.bodies.Keys, i.pool, t)
    ensures NULL < t && PortOf(t) + HEADER_WORDS <= |i.m|
    ensures World(i.m, i.ls) && World(i.m[t + PRI := pri], i.ls)
    ensures forall h :: h in i.ls ==> HeadersApart(PortOf(t), h) && forall n :: n in i.ls[h] ==> NodeApartHeader(n, PortOf(t))
  {
    hide World;
    LayoutParts(i);
    WorldFrame(i.m, i.ls, t, pri);
  }

  /** What dispatch needs to know when a system call returns. */
  lemma AfterTrap(s: S.State, call: S.Syscall)
    requires I.Inv(s) && s.mode == S.User && !I.DoubleLink(s, S.Trap(call))
    ensures var r := S.ScheduleIfNeeded(S.HandleTrap(S.EnterKernel(s), call));
      && S.Keeps(s, r) && r.mode == S.User
      && (r.reenter == 0 && r.needSwitch ==> I.Core(r, true) && I.RunFlag(r.threads, r.running, true))
  {
    hide I.Places, I.Sorted, I.Flags, I.RunFlag, S.SystemCall, S.ScheduleIfNeeded;
    var s1 := S.EnterKernel(s);
    assert I.RunFlag(s1.threads, s1.running, true);
    assert I.Core(s1, false) && !s1.needSwitch && (I.Preempts(s1) <==> I.Preempts(s));
    var h := S.HandleTrap(s1, call);
    if S.Running(s).uid == 0 { I.SystemCallCore(s1, call); assert h == S.SystemCall(s1, call); } else { assert h == s1; }
    AfterHandler(h);
  }

  lemma SavedCore(s: S.State, frame: S.Context)
    requires I.Core(s, true) && I.RunFlag(s.threads, s.running, true)
    ensures var r := Saved(s, frame); I.Core(r, true) && I.RunFlag(r.threads, s.running, true)
    ensures Saved(s, frame).reenter == s.reenter && Saved(s, frame).running == s.running
  {
    I.PlainCore(s, s.running, S.Running(s).(kernelEsp := frame), true);
  }

  lemma TakeHeadIs(s: S.State)
    requires S.Closed(s) && s.ready != []
    ensures var t := s.ready[0];
      S.TakeHead(s) == s.(ready := s.ready[1..], running := t, count := s.quantum,
                          threads := s.threads[t := s.threads[t].(run := true)])
  {}

  lemma RunIs(d: Descriptor, pri: int, port: seq<S.Message>)
    ensures ThreadOf(d.(run := true), pri, port) == ThreadOf(d, pri, port).(run := true)
  {}

  lemma RestoreIs(s: S.State)
    requires S.Closed(s)
    ensures var th := S.Running(s);
      S.Restore(s) == s.(mode := S.User, cpu := if th.launch then S.Entry(s.running) else th.kernelEsp,
                         reenter := (s.reenter + WORDS - 1) % WORDS,
                         threads := s.threads[s.running := th.(launch := false, signal := th.signal && th.launch)])
  {}

  lemma RestoredIs(d: Descriptor, pri: int, port: seq<S.Message>)
    ensures var th := ThreadOf(d, pri, port);
      && th.launch == d.launch && th.kernelEsp == d.kernelEsp
      && ThreadOf(d.(launch := false, signal := d.launch && d.signal), pri, port) == th.(launch := false, signal := th.signal && th.launch)
  {}

  lemma {:induction false} IdleInv(s: S.State, irqs: seq<S.Irq>)
    requires S.Closed(s) && I.Inv(s) && Targets(s, irqs)
    ensures I.Inv(Idle(s, irqs).0)
    decreases |irqs|
  {
    hide I.Inv, S.Wake;
    if s.mode != S.User && irqs != [] {
      I.WakeInv(s, irqs[0]);
      IdleInv(S.Wake(s, irqs[0]), irqs[1..]);
    }
  }

  /** In user mode, an entry that is not the double-linking wait, and interrupts for the idle time after it. */
  ghost predicate Enterable(s: S.State, ev: S.Event, irqs: seq<S.Irq>) {
    && S.Closed(s) && I.Inv(s) && s.mode == S.User && (ev.Interrupt? || ev.Trap?)
    && S.EventOk(s, ev) && !I.DoubleLink(s, ev) && Targets(s, irqs)
  }

  /** The entry's step, then idling. */
  ghost function EnteredFrom(s: S.State, ev: S.Event, frame: S.Context, irqs: seq<S.Irq>): (S.State, nat)
    requires Enterable(s, ev, irqs)
  {
    Idle(S.Step(s, ev, frame), irqs)
  }

  /** An entry from user mode and the interrupts of the idle time after it keep the invariant. */
  lemma StepThenIdle(s: S.State, ev: S.Event, frame: S.Context, irqs: seq<S.Irq>)
    requires Enterable(s, ev, irqs)
    ensures S.Step(s, ev, frame).threads.Keys == s.threads.Keys
    ensures I.Inv(Idle(S.Step(s, ev, frame), irqs).0)
    ensures ev.Trap? ==> S.Step(s, ev, frame) == S.ExitKernel(S.HandleTrap(S.EnterKernel(s), ev.call), frame)
    ensures ev.Interrupt? ==> S.Step(s, ev, frame) == S.ExitKernel(S.HandleIrq(S.EnterKernel(s), ev.irq), frame)
  {
    hide I.Inv, Idle, S.ExitKernel, S.HandleTrap, S.HandleIrq, S.Wake;
    I.StepInv(s, ev, frame);
    IdleInv(S.Step(s, ev, frame), irqs);
  }

  /** An empty port: three words from the 20th word of its thread on. */
  lemma EmptyPortWords(i: Image, t: Addr)
    requires ImageOk(i) && PortOf(t) in i.ls && i.ls[PortOf(t)] == []
    ensures t + 23 <= |i.m| && i.m[t + 20] == t + 21 && i.m[t + 21] == 0 && i.m[t + 22] == t + 20
  {
    hide World;
    LayoutParts(i);
    EmptyListWords(i.m, i.ls, PortOf(t));
  }

  lemma EmptyListWords(m: seq<int>, ls: map<Addr, seq<Addr>>, h: Addr)
    requires World(m, ls) && h in ls && ls[h] == []
    ensures h + 3 <= |m| && m[h] == h + 1 && m[h + 1] == 0 && m[h + 2] == h
  {
    W.ListIffWords(m, h, []);
  }

  /** A released key in user mode, without a reschedule pending, leaves only its frame. */
  lemma ReleaseThenIdle(s: S.State, frame: S.Context, irqs: seq<S.Irq>)
    requires Enterable(s, S.Interrupt(S.KeyRelease), irqs)
    ensures !s.needSchedule ==> EnteredFrom(s, S.Interrupt(S.KeyRelease), frame, irqs) == (s.(cpu := frame), 0)
  {
    hide I.Inv, S.Step;
    E.KeyReleaseIsQuiet(s, frame);
  }

  lemma PostAllowed(i: Image, t: Addr)
    requires ImageOk(i) && t in i.ds && i.pool != []
    ensures CanPost(i, t)
  {}

  lemma DeleteFirst(q: seq<Addr>)
    requires q != []
    ensures Delete(q, 0) == q[1..]
  {}

  /** The first descriptor and the counters, as the run theorems have them. */
  lemma BootIs(thread: Addr)
    ensures var d := Descriptor(0, true, false, false, false, false, {}, {}, S.Nowhere, 0);
      R.Boot(thread).s ==
      S.State(false, false, false, WORDS - 1, thread, S.Frame(0), S.User, [], [],
              R.STD_TS_QUANTUM, R.STD_TS_QUANTUM, 1, map[thread := ThreadOf(d, 0, [])])
  {}

  lemma NoWorld(m: seq<int>)
    ensures World(m, map[])
  {}

  method EmptyLists(mem: array<int>, ready: Addr, wait: Addr, thread: Addr, ghost blocks: seq<Addr>)
    requires BootLayout(mem.Length, ready, wait, thread, blocks)
    modifies mem
    ensures World(mem[..], map[ready := [], wait := [], PortOf(thread) := []])
    ensures mem[thread + PRI] == old(mem[thread + PRI])
  {
    hide World;
    NoWorld(mem[..]);
    NewList(mem, ready, map[]);
    NewList(mem, wait, map[ready := []]);
    NewList(mem, PortOf(thread), map[ready := [], wait := []]);
    ghost var queues: map<Addr, seq<Addr>> := map[ready := [], wait := []];
    assert queues[PortOf(thread) := []] == map[ready := [], wait := [], PortOf(thread) := []];
  }

  class Kernel {
    const mem: array<int>
    const readyList: Addr
    const waitList: Addr

    var needSchedule: bool
    var expired: bool
    var needSwitch: bool
    var reenter: nat
    var running: Addr
    var cpu: S.Context
    var mode: S.Mode
    var quantum: nat
    var count: int
    var forbidCounter: int

    var threads: map<Addr, Descriptor>
    var bodies: map<Addr, S.Message>
    var pool: seq<Addr>
    ghost var lists: map<Addr, seq<Addr>>
    ghost var image: seq<int>

    ghost function Img(): Image
      reads this
    {
      Image(image, lists, readyList, waitList, threads, bodies, pool)
    }

    ghost predicate Valid()
      reads this, mem
    {
      image == mem[..] && ImageOk(Img()) && running in threads
    }

    ghost function View(): (s: S.State)
      requires ImageOk(Img()) && running in threads
      reads this
      ensures S.Closed(s) && s.threads.Keys == threads.Keys
    {
      ImageKnown(Img());
      S.State(needSchedule, expired, needSwitch, reenter, running, cpu, mode,
              lists[readyList], lists[waitList], quantum, count, forbidCounter,
              Abstract(Img()))
    }

    /** init() of kernel_main.c: two empty queues and the kernel thread, with `blocks` free for messages. */
    constructor (words: nat, ready: Addr, wait: Addr, thread: Addr, blocks: seq<Addr>)
      requires BootLayout(words, ready, wait, thread, blocks)
      ensures Valid() && fresh(mem) && pool == blocks && View() == R.Boot(thread).s
    {
      hide ImageOk, Abstract, World, ThreadOf, R.Boot, S.Known;
      BootIs(thread);
      mem := new int[words](_ => 0);
      readyList, waitList := ready, wait;
      needSchedule, expired, needSwitch := false, false, false;
      reenter, running, cpu, mode := WORDS - 1, thread, S.Frame(0), S.User;
      quantum, count, forbidCounter := R.STD_TS_QUANTUM, R.STD_TS_QUANTUM, 1;
      threads := map[thread := Descriptor(0, true, false, false, false, false, {}, {}, S.Nowhere, 0)];
      bodies, pool := map[], blocks;
      new;
      EmptyLists(mem, ready, wait, thread, blocks);
      lists := map[ready := [], wait := [], PortOf(thread) := []];
      image := mem[..];
      ghost var i := BootImage(mem[..], ready, wait, thread, blocks, threads[thread]);
      assert Img() == i;
    }

    // ----- timer.c

    method TimerCallback()
      requires Valid()
      modifies this`count, this`expired, this`needSchedule
      ensures Valid() && View() == S.TimerCallback(old(View()))
    {
      hide ImageOk, Abstract;
      if count < -1 {
        return;
      }
      count := count - 1;
      if count < 0 {
        expired := true;
        needSchedule := true;
      }
    }

    // ----- queue operations, at one of the two queues

    method EnqueueThread(list: Addr, t: Addr)
      requires Valid() && (list == readyList || list == waitList) && t in threads
      requires t !in lists[readyList] && t !in lists[waitList]
      modifies mem, this`lists, this`image
      ensures Valid() && Abstract(Img()) == old(Abstract(Img()))
      ensures lists == old(lists)[list := S.Enqueued(old(Abstract(Img())), old(lists[list]), t)]
    {
      hide ImageOk, Abstract, World, Unlinked, Insert, Spliced, Slot, Pris, S.Enqueued;
      EnqueueReady(Img(), list, t);
      assert mem[t + PRI] == image[t + PRI];
      Enqueue(mem, list, t, lists);
      ghost var r := EnqueueImage(Img(), mem[..], list, t, Slot(Pris(image, lists[list]), image[t + PRI]));
      lists, image := r.ls, r.m;
    }

    /** remove() of a thread from the queue that holds it. */
    method UnlinkThread(t: Addr, ghost list: Addr, ghost k: nat)
      requires Valid() && (list == readyList || list == waitList) && k < |lists[list]| && lists[list][k] == t
      modifies mem, this`lists, this`image
      ensures Valid() && Abstract(Img()) == old(Abstract(Img()))
      ensures lists == old(lists)[list := Delete(old(lists[list]), k)] && t !in lists[list]
    {
      hide ImageOk, Abstract, World, Unlinked, Delete, Bypassed;
      LayoutParts(Img());
      Remove(mem, t, lists, list, k);
      ghost var r := RemoveImage(Img(), mem[..], list, k);
      lists, image := r.ls, r.m;
    }

    /** A store to fields of one descriptor. */
    method SetDescriptor(t: Addr, d: Descriptor)
      requires Valid() && t in threads
      modifies this`threads
      ensures Valid() && threads == old(threads)[t := d]
      ensures Abstract(Img()) == old(Abstract(Img()))[t := ThreadOf(d, old(Abstract(Img()))[t].pri, old(Abstract(Img()))[t].port)]
    {
      hide ImageOk, Abstract;
      ThreadAtIs(Img(), t, d);
      threads := threads[t := d];
    }

    // ----- message.c

    method MoveToReady(t: Addr, flags: S.Signals, ghost k: nat)
      requires Valid() && t in threads && t !in lists[readyList] && k < |lists[waitList]| && lists[waitList][k] == t
      modifies mem, this`lists, this`image, this`threads
      ensures Valid()
      ensures lists == old(lists)[waitList := Delete(old(lists[waitList]), k)]
                                 [readyList := S.Enqueued(old(Abstract(Img())), old(lists[readyList]), t)]
      ensures Abstract(Img()) == old(Abstract(Img()))[t := Woken(old(Abstract(Img()))[t], flags)]
    {
      hide ImageOk, Abstract, S.Enqueued, S.Known, Delete;
      ImageKnown(Img());
      UnlinkThread(t, waitList, k);
      EnqueueThread(readyList, t);
      ThreadAtIs(Img(), t, threads[t]);
      var d := threads[t];
      SetDescriptor(t, d.(sigRecvd := d.sigRecvd + flags, sigWait := d.sigWait - flags, wait := false, ready := true));
    }

    method SignalThread(t: Addr, flags: S.Signals)
      requires Valid() && t in threads
      requires threads[t].sigWait * flags != {} ==> t in lists[waitList] && t !in lists[readyList]
      modifies mem, this`lists, this`image, this`threads, this`needSchedule
      ensures Valid() && View() == S.Signal(old(View()), t, flags)
    {
      hide ImageOk, Abstract, S.Enqueued, S.Known, S.Without, S.MakeReady, S.Signal, Delete, Woken;
      var d := threads[t];
      ImageKnown(Img());
      ThreadAtIs(Img(), t, d);
      if d.sigWait * flags == {} {
        assert S.Signal(View(), t, flags) == View() by { SignalKeeps(View(), t, flags); }
        return;
      }
      ghost var s := View();
      ghost var k :| 0 <= k < |lists[waitList]| && lists[waitList][k] == t;
      assert S.Signal(s, t, flags) == s.(needSchedule := true, ready := S.Enqueued(s.threads, s.ready, t),
        waiting := Delete(s.waiting, k), threads := s.threads[t := Woken(s.threads[t], flags)]) by {
        QueuesDistinct(Img());
        MovesToReady(s, t, flags, k);
        SignalMakesReady(s, t, flags);
      }
      MoveToReady(t, flags, k);
      needSchedule := true;
    }

    /** kmalloc(), memcpy() and add_tail(): the first free block becomes the last message. */
    method LinkMessage(t: Addr, data: S.Message)
      requires Valid() && t in threads && pool != []
      modifies mem, this`lists, this`image, this`bodies, this`pool
      ensures Valid() && PortOf(t) in lists && PortOf(t) != readyList && PortOf(t) != waitList
      ensures lists == old(lists)[PortOf(t) := lists[PortOf(t)]] && pool == old(pool[1..])
      ensures Abstract(Img()) == old(Abstract(Img()))[t := old(Abstract(Img())[t]).(port := old(Abstract(Img())[t]).port + [data])]
    {
      hide ImageOk, Abstract, World, Unlinked, Spliced, S.Known, ThreadOf, CanPost, PortOf, InMemory, Threads;
      assert CanPost(Img(), t) by { PostAllowed(Img(), t); }
      var node := pool[0];
      ghost var i := Img();
      PostReady(i, t);
      PortsApart(i, t);
      AddTail(mem, PortOf(t), node, lists);
      ghost var r := PostImage(i, mem[..], t, data);
      lists, image, bodies, pool := r.ls, r.m, bodies[node := data], pool[1..];
    }

    /** The part of _msg_post() before _signal(). */
    method AppendMessage(t: Addr, data: S.Message)
      requires Valid() && t in threads && pool != []
      modifies mem, this`lists, this`image, this`threads, this`bodies, this`pool
      ensures Valid() && t in threads && threads == old(threads)[t := threads[t]] && threads[t].sigWait == old(threads[t].sigWait)
      ensures PortOf(t) in lists && PortOf(t) != readyList && PortOf(t) != waitList
      ensures lists == old(lists)[PortOf(t) := lists[PortOf(t)]]
      ensures pool == old(pool[1..])
      ensures Abstract(Img()) == old(Abstract(Img()))[t := Appended(old(Abstract(Img())[t]), data)]
    {
      hide ImageOk, Abstract, ThreadOf;
      ghost var ths := Abstract(Img());
      ghost var a := ths[t].(port := ths[t].port + [data]);
      ThreadAtIs(Img(), t, threads[t]);
      LinkMessage(t, data);
      ThreadAtIs(Img(), t, threads[t]);
      CountedIs(threads[t], a.pri, a.port, (threads[t].numMsg + 1) % 256);
      SetDescriptor(t, threads[t].(numMsg := (threads[t].numMsg + 1) % 256));
      I.StoreTwice(ths, t, a, Appended(ths[t], data));
    }

    method MsgPost(t: Addr, data: S.Message)
      requires Valid() && t in threads && pool != []
      requires S.ST_MESG in threads[t].sigWait ==> t in lists[waitList] && t !in lists[readyList]
      modifies mem, this`lists, this`image, this`threads, this`bodies, this`pool, this`needSchedule
      ensures Valid() && View() == S.Post(old(View()), t, data)
      ensures |pool| + 1 >= |old(pool)|
    {
      hide ImageOk, Abstract, S.AppendMessage, S.Signal, S.Post, S.Closed, S.Known, S.Keeps, Appended, ThreadOf;
      ghost var s := View();
      ImageKnown(Img());
      PostIs(s, t, data);
      if |data| > S.MAX_MSG_SZ {
        return;
      }
      AppendIs(s, t, data);
      AppendMessage(t, data);
      SignalThread(t, {S.ST_MESG});
    }

    method MsgRetrieve() returns (r: Addr)
      requires Valid()
      ensures HeadMessage(Img(), running, r)
    {
      hide ImageOk, Abstract, World;
      LayoutParts(Img());
      ghost var ns := PortList(Img(), running);
      assert ns != [] ==> ns[0] in ns;
      r := GetHead(mem, PortOf(running), lists);
    }

    /** remove_head() and kfree(): the head node of the runner's port goes back to the free blocks. */
    method FreeHead()
      requires Valid()
      modifies mem, this`lists, this`image, this`bodies, this`pool
      ensures Valid() && HeadFreed(old(Img()), Img(), running) && PortOf(running) != readyList && PortOf(running) != waitList
      ensures old(PortList(Img(), running)) != [] ==> var ths := old(Abstract(Img()));
        Abstract(Img()) == ths[running := ths[running].(port := ths[running].port[1..])]
    {
      hide ImageOk, Abstract, World, Bypassed;
      ghost var i := Img();
      LayoutParts(i);
      PortsApart(i, running);
      ghost var ns := PortList(i, running);
      var msg := RemoveHead(mem, PortOf(running), lists);
      if msg == NULL {
        return;
      }
      ghost var r := CycleImage(i, mem[..], running);
      lists, image, bodies, pool := r.ls, r.m, bodies - {msg}, pool + [msg];
    }

    method MsgCycle()
      requires Valid()
      modifies mem, this`lists, this`image, this`bodies, this`pool
      ensures Valid() && View() == S.RemoveMessage(old(View()))
      ensures HeadFreed(old(Img()), Img(), running) && |pool| >= |old(pool)|
    {
      hide ImageOk, Abstract, S.RemoveMessage, S.Known, S.Closed, S.Keeps;
      ImageKnown(Img());
      PortEmpty(Img(), running);
      RemoveIs(View());
      FreeHead();
    }

    // ----- thread.c

    method WaitForFlags(flags: S.Signals)
      requires Valid() && running !in lists[waitList] && running !in lists[readyList]
      modifies mem, this`lists, this`image, this`threads, this`needSwitch
      ensures Valid() && View() == S.WaitForFlags(old(View()), flags) && pool == old(pool)
    {
      hide ImageOk, Abstract, S.Enqueued, S.Known, S.Closed, S.Keeps;
      ghost var ths := Abstract(Img());
      ImageKnown(Img());
      ThreadAtIs(Img(), running, threads[running]);
      EnqueueThread(waitList, running);
      var d := threads[running];
      SetDescriptor(running, d.(ready := false, wait := true, sigWait := d.sigWait + flags));
      needSwitch := true;
    }

    /** Enqueues the runner and asks for a switch. */
    method Preempt()
      requires Valid() && running !in lists[waitList] && running !in lists[readyList]
      modifies mem, this`lists, this`image, this`needSwitch
      ensures Valid() && View() == old(View()).(ready := S.Enqueued(old(View().threads), old(View().ready), running), needSwitch := true)
    {
      hide ImageOk, Abstract, S.Enqueued, S.Known, S.Closed, S.Keeps;
      ImageKnown(Img());
      EnqueueThread(readyList, running);
      needSwitch := true;
    }

    /** Is the head of the ready queue more urgent than the runner, or the quantum over? */
    method Overdue() returns (b: bool)
      requires Valid()
      ensures b <==> View().ready != [] && (S.Running(View()).pri < View().threads[View().ready[0]].pri || expired)
    {
      hide ImageOk, Abstract, World, Threads, Headers, S.Known, S.Closed;
      LayoutParts(Img());
      ImageKnown(Img());
      var top := GetHead(mem, readyList, lists);
      HeadWord(Img());
      if top == NULL {
        return false;
      }
      PriorityWord(Img(), running);
      return mem[running + PRI] < mem[top + PRI] || expired;
    }

    method Schedule()
      requires Valid()
      requires forbidCounter <= 0 && (threads[running].signal || I.Preempts(View())) ==>
        running !in lists[waitList] && running !in lists[readyList]
      modifies mem, this`lists, this`image, this`needSwitch
      ensures Valid() && View() == S.Schedule(old(View()))
    {
      hide ImageOk, Abstract, S.Schedule, S.Enqueued, S.Known, S.Closed, S.Keeps;
      ScheduleIs(View());
      if forbidCounter > 0 {
        return;
      }
      ThreadAtIs(Img(), running, threads[running]);
      if threads[running].signal {
        Preempt();
        return;
      }
      var overdue := Overdue();
      if overdue {
        Preempt();
      }
    }

    // ----- kernel_main.c and idt.c

    method HandleIrq(irq: S.Irq, ghost parked: bool)
      requires Valid() && I.Core(View(), parked) && pool != [] && (irq.Key? ==> irq.target in threads)
      modifies this, mem
      ensures Valid() && View() == S.HandleIrq(old(View()), irq) && |pool| + 1 >= |old(pool)|
      ensures E.Told(old(View()), irq, View())
    {
      hide ImageOk, Abstract, S.TimerCallback, S.Post, E.Told;
      E.HandlerTells(View(), irq, parked);
      match irq
      case Timer => TimerCallback();
      case Key(t, data) =>
        ThreadAtIs(Img(), t, threads[t]);
        MsgPost(t, data);
      case KeyRelease =>
    }

    /** syscall(); the reply is what _msg_retrieve() stores through its argument. */
    method SystemCall(call: S.Syscall) returns (reply: Addr)
      requires Valid() && running !in lists[waitList] && running !in lists[readyList]
      modifies this, mem
      ensures Valid() && View() == S.HandleTrap(old(View()), call) && |pool| >= |old(pool)|
      ensures threads.Keys == old(threads.Keys)
      ensures call.Retrieve? && old(threads[running].uid) == 0 ==> HeadMessage(old(Img()), old(running), reply)
      ensures call.Cycle? && old(threads[running].uid) == 0 ==> HeadFreed(old(Img()), Img(), running)
    {
      hide ImageOk, Abstract, HeadMessage, HeadFreed, S.WaitForFlags, S.RemoveMessage;
      reply := NULL;
      ThreadAtIs(Img(), running, threads[running]);
      if threads[running].uid != 0 {
        return;
      }
      match call
      case Wait(flags) => WaitForFlags(flags);
      case Retrieve => reply := MsgRetrieve();
      case Cycle => MsgCycle();
      case Write =>
      case Other =>
    }

    /** The end of both interrupt handlers. */
    method ScheduleIfNeeded()
      requires Valid()
      requires needSchedule && reenter == 0 && forbidCounter <= 0 && (threads[running].signal || I.Preempts(View())) ==>
        running !in lists[waitList] && running !in lists[readyList]
      modifies mem, this`lists, this`image, this`needSwitch, this`needSchedule
      ensures Valid() && View() == S.ScheduleIfNeeded(old(View()))
    {
      hide ImageOk, Abstract, S.Schedule;
      if needSchedule && reenter == 0 {
        needSchedule := false;
        Schedule();
      }
    }

    method IrqHandler(irq: S.Irq, ghost parked: bool)
      requires Valid() && I.Core(View(), parked) && pool != [] && (irq.Key? ==> irq.target in threads)
      requires parked ==> reenter == 0
      modifies this, mem
      ensures Valid() && |pool| + 1 >= |old(pool)|
      ensures View() == S.ScheduleIfNeeded(S.HandleIrq(S.EnterKernel(old(View())), irq))
    {
      hide ImageOk, Abstract, ThreadOf, S.HandleIrq, S.ScheduleIfNeeded, S.Known, S.Closed, S.Keeps, I.Core, I.Preempts, E.Told;
      NotParked(View(), irq, parked);
      reenter := (reenter + 1) % WORDS;
      HandleIrq(irq, parked);
      ThreadAtIs(Img(), running, threads[running]);
      ScheduleIfNeeded();
    }

    method IdtHandler(call: S.Syscall) returns (reply: Addr)
      requires Valid() && I.Inv(View()) && mode == S.User && !I.DoubleLink(View(), S.Trap(call))
      modifies this, mem
      ensures Valid() && |pool| >= |old(pool)|
      ensures View() == S.ScheduleIfNeeded(S.HandleTrap(S.EnterKernel(old(View())), call))
      ensures call.Retrieve? && old(threads[running].uid) == 0 ==> HeadMessage(old(Img()), old(running), reply)
    {
      hide ImageOk, Abstract, HeadMessage, HeadFreed, S.HandleTrap, S.ScheduleIfNeeded, I.Inv, I.DoubleLink;
      TrapMaySchedule(View(), call);
      reenter := (reenter + 1) % WORDS;
      reply := SystemCall(call);
      ThreadAtIs(Img(), running, threads[running]);
      ScheduleIfNeeded();
    }

    // ----- thread.c and idt_s.asm: the switch

    /** switch_threads() up to its loop. */
    method StopRunner()
      requires Valid()
      modifies this`needSwitch, this`expired, this`threads
      ensures Valid() && View() == Stopped(old(View())) && threads.Keys == old(threads.Keys)
    {
      hide ImageOk, Abstract, S.Known;
      ghost var ths := Abstract(Img());
      ThreadAtIs(Img(), running, threads[running]);
      needSwitch := false;
      expired := false;
      SetDescriptor(running, threads[running].(run := false));
    }

    /** Makes the first ready thread the running one, if there is one. */
    method UnlinkHead() returns (b: bool)
      requires Valid()
      modifies mem, this`lists, this`image, this`running, this`count
      ensures Valid() && Abstract(Img()) == old(Abstract(Img()))
      ensures b == (old(lists[readyList]) != [])
      ensures !b ==> View() == old(View())
      ensures b ==> running == old(lists[readyList][0]) && count == quantum
      ensures b ==> lists == old(lists)[readyList := old(lists[readyList][1..])]
    {
      hide ImageOk, Abstract, World, Headers, Threads, Delete, ThreadOf, S.Known;
      LayoutParts(Img());
      HeadWord(Img());
      var next := GetHead(mem, readyList, lists);
      if next == NULL {
        return false;
      }
      assert Delete(lists[readyList], 0) == lists[readyList][1..] by { DeleteFirst(lists[readyList]); }
      UnlinkThread(next, readyList, 0);
      running := next;
      count := quantum;
      return true;
    }

    /** switch_threads() from the loop's condition on; false if no thread is ready. */
    method TryTakeHead() returns (b: bool)
      requires Valid()
      modifies mem, this`lists, this`image, this`threads, this`running, this`count
      ensures Valid() && threads.Keys == old(threads.Keys) && b == (old(View()).ready != [])
      ensures View() == if b then S.TakeHead(old(View())) else old(View())
    {
      hide ImageOk, Abstract, ThreadOf, S.TakeHead, S.Known, S.Closed, S.Keeps;
      ghost var s := View();
      ImageKnown(Img());
      b := UnlinkHead();
      if b {
        TakeHeadIs(s);
        ThreadAtIs(Img(), running, threads[running]);
        RunIs(threads[running], s.threads[running].pri, s.threads[running].port);
        SetDescriptor(running, threads[running].(run := true));
      }
    }

    /** The end of dispatch after a switch: launch the new runner or restore its stack. */
    method Restore()
      requires Valid()
      modifies this`mode, this`cpu, this`reenter, this`threads
      ensures Valid() && View() == S.Restore(old(View())) && threads.Keys == old(threads.Keys)
    {
      hide ImageOk, Abstract, ThreadOf, S.Restore, S.Known, S.Closed, S.Keeps;
      RestoreIs(View());
      ThreadAtIs(Img(), running, threads[running]);
      var d := threads[running];
      RestoredIs(d, View().threads[running].pri, View().threads[running].port);
      mode := S.User;
      cpu := if d.launch then S.Entry(running) else d.kernelEsp;
      reenter := (reenter + WORDS - 1) % WORDS;
      SetDescriptor(running, d.(launch := false, signal := d.launch && d.signal));
    }

    /** dispatch's store of the stack pointer; a runner that is not running was interrupted at the halt. */
    method SaveFrame(frame: S.Context)
      requires Valid()
      modifies this`threads
      ensures Valid() && View() == Saved(old(View()), frame) && threads.Keys == old(threads.Keys)
    {
      hide ImageOk, Abstract, S.Known;
      ThreadAtIs(Img(), running, threads[running]);
      if threads[running].run {
        SetDescriptor(running, threads[running].(kernelEsp := frame));
      }
    }

    /** No thread is ready: have the next interrupt reschedule, and halt. */
    method HaltProcessor()
      requires Valid()
      modifies this`needSchedule, this`mode
      ensures Valid() && View() == Halt(old(View()))
    {
      hide ImageOk, Abstract, S.Known;
      needSchedule := true;
      mode := S.Halted;
    }

    /**
     switch_threads().  `irqs` are the interrupts that arrive while the processor halts;
     without a ready thread after the last of them it stays halted.
     */
    method SwitchThreads(irqs: seq<S.Irq>) returns (woken: bool, used: nat)
      requires Valid() && reenter == 0 && I.Core(View(), true) && I.RunFlag(View().threads, running, true)
      requires |pool| >= |irqs| && Targets(View(), irqs)
      modifies this, mem
      ensures Valid() && threads.Keys == old(threads.Keys) && used <= |irqs|
      ensures Idle(S.SwitchIn(Stopped(old(View()))), irqs) == (if woken then S.Restore(View()) else View(), used)
      decreases |irqs|, 1
    {
      hide ImageOk, Abstract, ThreadOf, I.Core, I.RunFlag, I.Inv, Idle, Idling, Stopped, Halt, S.Closed, S.Known, S.Running,
        S.TakeHead, S.Restore, S.SwitchIn, S.ExitKernel, S.HandleIrq, S.EnterKernel;
      IdlingStarts(View(), irqs);
      ghost var end := Idle(S.SwitchIn(Stopped(View())), irqs);
      StopRunner();
      woken, used := IdleLoop(irqs, end);
    }

    /** The loop of switch_threads(). */
    method IdleLoop(irqs: seq<S.Irq>, ghost end: (S.State, nat)) returns (woken: bool, used: nat)
      requires Valid() && Idling(View(), irqs, 0, end) && |pool| >= |irqs|
      modifies this, mem
      ensures Valid() && threads.Keys == old(threads.Keys) && used <= |irqs|
      ensures end == (if woken then S.Restore(View()) else View(), used)
      decreases |irqs|, 0
    {
      hide ImageOk, Abstract, ThreadOf, I.Core, I.RunFlag, I.Inv, Idle, Idling, Halt, S.Closed, S.Known, S.Running,
        S.TakeHead, S.Restore, S.SwitchIn, S.ExitKernel, S.HandleIrq, S.EnterKernel;
      used := 0;
      while true
        invariant Valid() && Idling(View(), irqs, used, end)
        invariant threads.Keys == old(threads.Keys) && used <= |irqs| && |pool| >= |irqs| - used
        decreases |irqs| - used
      {
        ghost var h := View();
        woken := TryTakeHead();
        if woken {
          IdlingEnds(h, irqs, used, end);
          return;
        }
        HaltProcessor();
        if used == |irqs| {
          IdlingStays(h, irqs, end);
          return;
        }
        IdlingGoesOn(h, irqs, used, end);
        var _ := IrqStub(irqs[used], cpu, [], true);
        used := used + 1;
      }
    }

    /** dispatch: where every interrupt ends.  `frame` is what the interrupt stub pushed. */
    method Dispatch(frame: S.Context, irqs: seq<S.Irq>) returns (used: nat)
      requires Valid() && Targets(View(), irqs)
      requires reenter == 0 && needSwitch ==>
        I.Core(View(), true) && I.RunFlag(View().threads, running, true) && |pool| >= |irqs|
      requires reenter != 0 || !needSwitch ==> mode == S.User || irqs == []
      modifies this, mem
      ensures Valid() && threads.Keys == old(threads.Keys)
      ensures (View(), used) == Idle(S.Dispatch(old(View()), frame), irqs)
      ensures old(reenter) != 0 ==> pool == old(pool)
      decreases |irqs|, 2
    {
      hide ImageOk, Abstract, I.Core, I.RunFlag, Stopped, Saved, S.Restore, S.TakeHead, S.SwitchIn, S.SwitchOut, S.Known;
      if reenter != 0 || !needSwitch {
        cpu := frame;
        reenter := (reenter + WORDS - 1) % WORDS;
        return 0;
      }
      DispatchIs(View(), frame);
      SavedCore(View(), frame);
      SaveFrame(frame);
      var woken;
      woken, used := SwitchThreads(irqs);
      if woken {
        Restore();
      }
    }

    /** irq_common_stub: the handler, then dispatch. */
    method IrqStub(irq: S.Irq, frame: S.Context, irqs: seq<S.Irq>, ghost parked: bool) returns (used: nat)
      requires Valid() && (irq.Key? ==> irq.target in threads) && Targets(View(), irqs) && |pool| > |irqs|
      requires if parked then I.Core(View(), true) && reenter == 0 && irqs == [] else I.Inv(View()) && mode == S.User
      modifies this, mem
      ensures Valid() && threads.Keys == old(threads.Keys)
      ensures parked ==> |pool| + 1 >= |old(pool)|
      ensures (View(), used) == Idle(S.ExitKernel(S.HandleIrq(S.EnterKernel(old(View())), irq), frame), irqs)
      decreases |irqs|, 3
    {
      hide ImageOk, Abstract, I.Core, I.Inv, I.RunFlag, Idle, S.HandleIrq, S.EnterKernel, S.ScheduleIfNeeded, S.Dispatch, S.Known, S.Closed;
      AfterIrq(View(), irq, parked);
      IrqHandler(irq, parked);
      used := Dispatch(frame, irqs);
    }

    /** A hardware interrupt in user mode. */
    method Interrupt(irq: S.Irq, frame: S.Context, irqs: seq<S.Irq>) returns (used: nat)
      requires Valid() && Enterable(View(), S.Interrupt(irq), irqs) && |pool| > |irqs|
      modifies this, mem
      ensures Valid() && threads.Keys == old(threads.Keys) && I.Inv(View())
      ensures (View(), used) == EnteredFrom(old(View()), S.Interrupt(irq), frame, irqs)
      ensures irq.KeyRelease? && !old(needSchedule) ==> View() == old(View()).(cpu := frame) && used == 0
    {
      hide ImageOk, Abstract, I.Core, I.Inv, I.RunFlag, Idle, S.HandleIrq, S.EnterKernel, S.ExitKernel, S.Step, S.Known, S.Closed;
      ReleaseThenIdle(View(), frame, irqs);
      StepThenIdle(View(), S.Interrupt(irq), frame, irqs);
      used := IrqStub(irq, frame, irqs, false);
    }

    /** The software interrupt's stub: idt_handler(), then dispatch. */
    method IsrStub(call: S.Syscall, frame: S.Context, irqs: seq<S.Irq>) returns (reply: Addr, used: nat)
      requires Valid() && Enterable(View(), S.Trap(call), irqs) && |pool| >= |irqs|
      modifies this, mem
      ensures Valid() && threads.Keys == old(threads.Keys) && I.Inv(View())
      ensures (View(), used) == EnteredFrom(old(View()), S.Trap(call), frame, irqs)
      ensures call.Retrieve? && old(threads[running].uid) == 0 ==> HeadMessage(old(Img()), old(running), reply)
    {
      hide ImageOk, Abstract, HeadMessage, I.Core, I.Inv, I.DoubleLink, I.RunFlag, Idle, S.HandleTrap, S.EnterKernel,
        S.ScheduleIfNeeded, S.Dispatch, S.Known, S.Closed;
      StepThenIdle(View(), S.Trap(call), frame, irqs);
      AfterTrap(View(), call);
      reply := IdtHandler(call);
      used := Dispatch(frame, irqs);
    }

    method Forbid()
      requires Valid() && mode == S.User
      modifies this`forbidCounter
      ensures Valid() && View() == S.Step(old(View()), S.Forbid, S.Nowhere)
    {
      hide ImageOk, Abstract, S.Known;
      forbidCounter := forbidCounter + 1;
    }

    method Permit()
      requires Valid() && mode == S.User
      modifies this`forbidCounter
      ensures Valid() && View() == S.Step(old(View()), S.Permit, S.Nowhere)
    {
      hide ImageOk, Abstract, S.Known;
      forbidCounter := forbidCounter - 1;
    }

    // ----- thread.c: new threads

    /** create_thread() up to enqueue(), on the block `t` that kmalloc() returned. */
    method PrepareThread(t: Addr, pri: int, uid: nat)
      requires Valid() && FreshThread(image, lists, threads.Keys, bodies.Keys, pool, t)
      modifies mem, this`lists, this`image, this`threads
      ensures Valid() && t in threads && PortOf(t) != readyList && PortOf(t) != waitList
      ensures lists == old(lists)[PortOf(t) := []] && t !in lists[readyList] && t !in lists[waitList]
      ensures Abstract(Img()) == old(Abstract(Img()))[t := NewThread(pri, uid)]
    {
      hide ImageOk, Abstract, World, FreshThread;
      ghost var i := Img();
      FreshRoom(i, t, pri);
      mem[t + PRI] := pri;
      assert mem[..] == image[t + PRI := pri];
      NewList(mem, PortOf(t), lists);
      var d := Descriptor(uid, false, false, true, false, true, {}, {}, S.Nowhere, 0);
      ghost var r := NewThreadImage(i, mem[..], t, pri, d);
      lists, image, threads := r.ls, r.m, threads[t := d];
    }

    method CreateThread(t: Addr, pri: int, uid: nat)
      requires Valid() && FreshThread(image, lists, threads.Keys, bodies.Keys, pool, t)
      modifies mem, this`lists, this`image, this`threads
      ensures Valid() && View() == S.CreateThread(old(View()), t, pri, uid)
      ensures t + 23 <= mem.Length && mem[t + 20] == t + 21 && mem[t + 21] == 0 && mem[t + 22] == t + 20
    {
      hide ImageOk, Abstract, FreshThread, S.Enqueued, S.Known, S.Closed, S.Keeps;
      ImageKnown(Img());
      PrepareThread(t, pri, uid);
      EnqueueThread(readyList, t);
      EmptyPortWords(Img(), t);
    }
  }
}
