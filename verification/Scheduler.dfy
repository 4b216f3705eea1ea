/**
 The state of the Krypton scheduler and what each kernel entry does to it:
 thread.c, message.c, timer.c, the interrupt handlers of idt.c and the dispatcher
 of idt_s.asm.

 Queues and ports are sequences here; Kernel.dfy runs the same steps in place over
 the linked lists of Lists.dfy.  A bit set of signals is a set of bit numbers, and
 thread_flags is one bool a bit.
 */
module Scheduler {
  import opened Common
  import opened Lists

  type Tid = Addr
  type Signals = set<nat>
  type Message = seq<bv8>

  const ST_MESG: nat := 0
  const MAX_MSG_SZ := 128

  /** Where a thread continues: an interrupt frame saved on its kernel stack, or its entry point. */
  datatype Context = Nowhere | Frame(id: nat) | Entry(thread: Tid)

  datatype Thread = Thread(
    pri: int, uid: nat,
    run: bool, wait: bool, ready: bool, signal: bool, launch: bool,
    sigWait: Signals, sigRecvd: Signals,
    kernelEsp: Context,
    port: seq<Message>, numMsg: nat)

  /** User: the running thread executes.  Halted: the processor idles inside switch_threads(). */
  datatype Mode = User | Halted

  datatype State = State(
    needSchedule: bool, expired: bool, needSwitch: bool,
    reenter: nat,
    running: Tid, cpu: Context, mode: Mode,
    ready: seq<Tid>, waiting: seq<Tid>,
    quantum: nat, count: int, forbid: int,
    threads: map<Tid, Thread>)

  datatype Irq = Timer | Key(target: Tid, data: Message) | KeyRelease

  datatype Syscall = Wait(flags: Signals) | Write | Retrieve | Cycle | Other

  datatype Event =
    | Interrupt(irq: Irq)
    | Trap(call: Syscall)
    | Create(thread: Tid, pri: int, uid: nat)
    | Forbid
    | Permit

  ghost predicate Known(ths: map<Tid, Thread>, q: seq<Tid>) {
    forall t :: t in q ==> t in ths
  }

  /** All thread references resolve. */
  ghost predicate Closed(s: State) {
    s.running in s.threads && Known(s.threads, s.ready) && Known(s.threads, s.waiting)
  }

  ghost function Priorities(ths: map<Tid, Thread>, q: seq<Tid>): (ps: seq<int>)
    requires Known(ths, q)
    ensures |ps| == |q|
    ensures forall i {:trigger ps[i]} :: 0 <= i < |q| ==> q[i] in ths && ps[i] == ths[q[i]].pri
  {
    seq(|q|, i requires 0 <= i < |q| => assert q[i] in q; ths[q[i]].pri)
  }

  ghost function Enqueued(ths: map<Tid, Thread>, q: seq<Tid>, t: Tid): (r: seq<Tid>)
    requires Known(ths, q) && t in ths
    ensures Known(ths, r)
  {
    Insert(q, Slot(Priorities(ths, q), ths[t].pri), t)
  }

  /** remove() on a queue: the (first) occurrence of `t` goes. */
  ghost function Without(q: seq<Tid>, t: Tid): (r: seq<Tid>)
    ensures forall x :: x in r ==> x in q
  {
    if q == [] then [] else if q[0] == t then q[1..] else [q[0]] + Without(q[1..], t)
  }

  ghost function Running(s: State): Thread
    requires s.running in s.threads
  {
    s.threads[s.running]
  }

  /** A kernel step keeps every thread and every reference to one. */
  ghost predicate Keeps(s: State, r: State) {
    Closed(r) && r.threads.Keys == s.threads.Keys
  }

  ghost function SetThread(s: State, t: Tid, th: Thread): State {
    s.(threads := s.threads[t := th])
  }

  // ----- timer.c

  ghost function TimerCallback(s: State): (r: State)
    requires Closed(s)
    ensures Keeps(s, r)
  {
    if s.count < -1 then s
    else if s.count - 1 < 0 then s.(count := s.count - 1, expired := true, needSchedule := true)
    else s.(count := s.count - 1)
  }

  // ----- message.c

  /** The tail of _signal(): from the wait queue to the ready queue. */
  ghost function MakeReady(s: State, t: Tid, flags: Signals): (r: State)
    requires Closed(s) && t in s.threads
    ensures Keeps(s, r)
  {
    var th := s.threads[t];
    s.(ready := Enqueued(s.threads, Without(s.ready, t), t), waiting := Without(s.waiting, t), needSchedule := true,
       threads := s.threads[t := th.(sigRecvd := th.sigRecvd + flags, sigWait := th.sigWait - flags,
                                     wait := false, ready := true)])
  }

  ghost function Signal(s: State, t: Tid, flags: Signals): (r: State)
    requires Closed(s) && t in s.threads
    ensures Keeps(s, r)
  {
    if s.threads[t].sigWait * flags == {} then s else MakeReady(s, t, flags)
  }

  ghost function AppendMessage(s: State, t: Tid, data: Message): (r: State)
    requires Closed(s) && t in s.threads
    ensures Keeps(s, r)
  {
    var th := s.threads[t];
    SetThread(s, t, th.(port := th.port + [data], numMsg := (th.numMsg + 1) % 256))
  }

  ghost function Post(s: State, t: Tid, data: Message): (r: State)
    requires Closed(s) && t in s.threads
    ensures Keeps(s, r)
  {
    if |data| > MAX_MSG_SZ then s else Signal(AppendMessage(s, t, data), t, {ST_MESG})
  }

  ghost function RemoveMessage(s: State): (r: State)
    requires Closed(s)
    ensures Keeps(s, r)
  {
    var th := Running(s);
    if th.port == [] then s else SetThread(s, s.running, th.(port := th.port[1..]))
  }

  // ----- thread.c

  ghost function WaitForFlags(s: State, flags: Signals): (r: State)
    requires Closed(s)
    ensures Keeps(s, r)
  {
    var th := Running(s);
    s.(waiting := Enqueued(s.threads, s.waiting, s.running), needSwitch := true,
       threads := s.threads[s.running := th.(ready := false, wait := true, sigWait := th.sigWait + flags)])
  }

  ghost function Schedule(s: State): (r: State)
    requires Closed(s)
    ensures Keeps(s, r)
  {
    if s.forbid > 0 then s
    else if Running(s).signal then
      s.(ready := Enqueued(s.threads, s.ready, s.running), needSwitch := true)
    else if s.ready == [] then s
    else if Running(s).pri < s.threads[s.ready[0]].pri || s.expired then
      s.(ready := Enqueued(s.threads, s.ready, s.running), needSwitch := true)
    else s
  }

  ghost function CreateThread(s: State, t: Tid, pri: int, uid: nat): State
    requires Closed(s)
  {
    var s1 := SetThread(s, t, Thread(pri, uid, false, false, true, false, true, {}, {}, Nowhere, [], 0));
    s1.(ready := Enqueued(s1.threads, s1.ready, t))
  }

  // ----- idt.c and kernel_main.c

  ghost function HandleIrq(s: State, irq: Irq): (r: State)
    requires Closed(s) && (irq.Key? ==> irq.target in s.threads)
    ensures Keeps(s, r)
  {
    match irq
    case Timer => TimerCallback(s)
    case Key(t, data) => Post(s, t, data)
    case KeyRelease => s
  }

  ghost function SystemCall(s: State, call: Syscall): (r: State)
    requires Closed(s)
    ensures Keeps(s, r)
  {
    match call
    case Wait(flags) => WaitForFlags(s, flags)
    case Cycle => RemoveMessage(s)
    case Write => s
    case Retrieve => s
    case Other => s
  }

  ghost function HandleTrap(s: State, call: Syscall): (r: State)
    requires Closed(s)
    ensures Keeps(s, r)
  {
    if Running(s).uid != 0 then s else SystemCall(s, call)
  }

  ghost function ScheduleIfNeeded(s: State): (r: State)
    requires Closed(s)
    ensures Keeps(s, r)
  {
    if s.needSchedule && s.reenter == 0 then Schedule(s.(needSchedule := false)) else s
  }

  ghost function EnterKernel(s: State): State {
    s.(reenter := (s.reenter + 1) % WORDS)
  }

  ghost function LeaveKernel(s: State): State {
    s.(reenter := (s.reenter + WORDS - 1) % WORDS)
  }

  // ----- idt_s.asm and switch_threads()

  /** dispatch up to the test of the ready queue in switch_threads(). */
  ghost function SwitchOut(s: State, frame: Context): (r: State)
    requires Closed(s)
    ensures Keeps(s, r)
  {
    var th := Running(s);
    SetThread(s.(needSwitch := false, expired := false), s.running,
              th.(run := false, kernelEsp := if th.run then frame else th.kernelEsp))
  }

  /** switch_threads() after its loop: the head of the ready queue becomes the runner. */
  ghost function TakeHead(s: State): (r: State)
    requires Closed(s) && s.ready != []
    ensures Keeps(s, r)
  {
    var t := s.ready[0];
    s.(ready := s.ready[1..], running := t, count := s.quantum,
       threads := s.threads[t := s.threads[t].(run := true)])
  }

  /** The rest of dispatch: resume the runner's saved context, or launch it. */
  ghost function Restore(s: State): (r: State)
    requires Closed(s)
    ensures Keeps(s, r)
  {
    var th := Running(s);
    LeaveKernel(SetThread(s.(mode := User, cpu := if th.launch then Entry(s.running) else th.kernelEsp),
                          s.running, th.(launch := false, signal := th.signal && th.launch)))
  }

  ghost function Resume(s: State): (r: State)
    requires Closed(s) && s.ready != []
    ensures Keeps(s, r)
  {
    Restore(TakeHead(s))
  }

  /** One evaluation of the idle loop's condition: halt, or switch to the first ready thread. */
  ghost function SwitchIn(s: State): (r: State)
    requires Closed(s)
    ensures Keeps(s, r)
  {
    if s.ready == [] then s.(needSchedule := true, mode := Halted) else Resume(s)
  }

  ghost function Dispatch(s: State, frame: Context): (r: State)
    requires Closed(s)
    ensures Keeps(s, r)
  {
    if s.reenter != 0 || !s.needSwitch then LeaveKernel(s.(cpu := frame))
    else SwitchIn(SwitchOut(s, frame))
  }

  /** The common end of both interrupt handlers, then the dispatcher. */
  ghost function ExitKernel(s: State, frame: Context): (r: State)
    requires Closed(s)
    ensures Keeps(s, r)
  {
    Dispatch(ScheduleIfNeeded(s), frame)
  }

  ghost predicate EventOk(s: State, ev: Event) {
    match ev
    case Interrupt(Key(t, _)) => t in s.threads
    case Interrupt(_) => true
    case Create(t, _, _) => s.mode == User && t !in s.threads
    case Trap(_) => s.mode == User
    case Forbid => s.mode == User
    case Permit => s.mode == User
  }

  /** An interrupt that wakes the halted processor, down to the next test of the idle loop. */
  ghost function Wake(s: State, irq: Irq): (r: State)
    requires Closed(s) && (irq.Key? ==> irq.target in s.threads)
    ensures Keeps(s, r)
  {
    SwitchIn(ExitKernel(HandleIrq(EnterKernel(s), irq), s.cpu))
  }

  /**
   One event, from user mode or from the halted processor back to one of the two.
   `frame` is the register frame the interrupted thread leaves on its kernel stack.
   */
  ghost function Step(s: State, ev: Event, frame: Context): (r: State)
    requires Closed(s) && EventOk(s, ev)
    ensures Closed(r) && (!ev.Create? ==> Keeps(s, r))
  {
    match ev
    case Create(t, pri, uid) => CreateThread(s, t, pri, uid)
    case Forbid => s.(forbid := s.forbid + 1)
    case Permit => s.(forbid := s.forbid - 1)
    case Interrupt(irq) =>
      if s.mode == Halted then Wake(s, irq)
      else ExitKernel(HandleIrq(EnterKernel(s), irq), frame)
    case Trap(call) =>
      ExitKernel(HandleTrap(EnterKernel(s), call), frame)
  }
}
