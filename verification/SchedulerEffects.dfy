/**
 What each event does, written out for a state at rest: the steps of Scheduler.dfy without
 their nesting counter, their handlers and their dispatcher, and with the numbers of the
 source in place of its names.
 */
module SchedulerEffects {
  import opened Common
  import opened Lists
  import opened Scheduler
  import opened SchedulerInvariant
  import SchedulerSteps
  import R = SchedulerRuns

  /** `r` is `q` with `t` in front of the first thread whose priority is at most its own. */
  ghost predicate Joined(ths: map<Tid, Thread>, q: seq<Tid>, t: Tid, r: seq<Tid>)
    requires Known(ths, q) && t in ths
  {
    exists k :: 0 <= k <= |q| && JoinedAt(ths, q, t, k) && r == q[..k] + [t] + q[k..]
  }

  ghost predicate JoinedAt(ths: map<Tid, Thread>, q: seq<Tid>, t: Tid, k: nat)
    requires Known(ths, q) && t in ths && k <= |q|
  {
    && (forall i {:trigger q[i]} :: 0 <= i < k ==> q[i] in q && ths[q[i]].pri > ths[t].pri)
    && (k < |q| ==> q[k] in q && ths[q[k]].pri <= ths[t].pri)
  }

  /** `r` is `q` without `t`, the order of the others kept. */
  ghost predicate Parted(q: seq<Tid>, t: Tid, r: seq<Tid>) {
    exists k :: 0 <= k < |q| && q[k] == t && r == q[..k] + q[k + 1..] && t !in r
  }

  lemma EnqueuedJoins(ths: map<Tid, Thread>, q: seq<Tid>, t: Tid)
    requires Known(ths, q) && t in ths
    ensures Joined(ths, q, t, Enqueued(ths, q, t))
  {
    var ps := Priorities(ths, q);
    var k := Slot(ps, ths[t].pri);
    assert JoinedAt(ths, q, t, k) by {
      forall i | 0 <= i < k ensures q[i] in q && ths[q[i]].pri > ths[t].pri { assert ps[i] == ths[q[i]].pri; }
    }
  }

  lemma WithoutParts(q: seq<Tid>, t: Tid)
    requires Distinct(q) && t in q
    ensures Parted(q, t, Without(q, t))
  {
    var k :| 0 <= k < |q| && q[k] == t;
    WithoutIsDelete(q, k);
    DeleteFacts(q, k);
  }

  // ----- what a handler has done by the time it returns

  /** `h` is `s` after the handler of `irq`. */
  ghost predicate Told(s: State, irq: Irq, h: State)
    requires Closed(s) && (irq.Key? ==> irq.target in s.threads)
  {
    match irq
    case Timer =>
      if s.count >= 1 then h == s.(count := s.count - 1)
      else if s.count >= -1 then h == s.(count := s.count - 1, expired := true, needSchedule := true)
      else h == s
    case KeyRelease => h == s
    case Key(t, data) =>
      var th := s.threads[t];
      var posted := th.(port := th.port + [data], numMsg := (th.numMsg + 1) % 256);
      if |data| > 128 then h == s
      else if 0 !in th.sigWait then h == s.(threads := s.threads[t := posted])
      else
        && Joined(s.threads, s.ready, t, h.ready) && Parted(s.waiting, t, h.waiting)
        && h == s.(ready := h.ready, waiting := h.waiting, needSchedule := true, threads := s.threads[t :=
             posted.(sigRecvd := th.sigRecvd + {0}, sigWait := th.sigWait - {0}, wait := false, ready := true)])
  }

  /** `h` is `s` after the handler of a system call other than wait(). */
  ghost predicate Called(s: State, call: Syscall, h: State)
    requires Closed(s)
  {
    var th := Running(s);
    if call.Cycle? && th.uid == 0 && th.port != [] then
      h == s.(threads := s.threads[s.running := th.(port := th.port[1..])])
    else h == s
  }

  // ----- what leaving the kernel does

  /** The head of `q` runs next; the runner of `h` has its frame saved and its run flag cleared. */
  ghost predicate SwitchedTo(h: State, q: seq<Tid>, frame: Context, r: State)
    requires Closed(h) && Known(h.threads, q) && q != []
  {
    assert q[0] in q;
    var last, t := Running(h).(run := false, kernelEsp := frame), q[0];
    var next := if t == h.running then last else h.threads[t];
    r == h.(needSchedule := false, expired := false, needSwitch := false, reenter := 0xFFFF_FFFF,
            running := t, cpu := if next.launch then Entry(t) else next.kernelEsp,
            ready := q[1..], count := h.quantum,
            threads := h.threads[h.running := last]
                                [t := next.(run := true, launch := false, signal := next.signal && next.launch)])
  }

  /** Nobody is ready: the processor halts inside the kernel. */
  ghost predicate HaltedFrom(h: State, frame: Context, r: State)
    requires Closed(h)
  {
    r == h.(needSchedule := true, expired := false, needSwitch := false, reenter := 0, mode := Halted,
            threads := h.threads[h.running := Running(h).(run := false, kernelEsp := frame)])
  }

  /** The runner loses the processor if a reschedule is due that is permitted and finds a reason. */
  ghost predicate GivesWay(h: State)
    requires Closed(h)
  {
    && h.needSchedule && h.forbid <= 0
    && (Running(h).signal
        || (h.ready != [] && (assert h.ready[0] in h.ready; Running(h).pri < h.threads[h.ready[0]].pri || h.expired)))
  }

  ghost predicate Exited(h: State, frame: Context, r: State)
    requires Closed(h)
  {
    if GivesWay(h) then exists q :: q != [] && Known(h.threads, q) && Joined(h.threads, h.ready, h.running, q) && SwitchedTo(h, q, frame, r)
    else r == h.(needSchedule := false, reenter := 0xFFFF_FFFF, cpu := frame)
  }

  /** From the handler's return to user mode, the TB_SIGNAL branch of schedule() included. */
  lemma ExitEffect(h: State, frame: Context)
    requires Closed(h) && h.reenter == 0 && h.mode == User && !h.needSwitch && Running(h).run
    ensures Exited(h, frame, ExitKernel(h, frame))
  {
    hide Enqueued, Joined;
    var r := ExitKernel(h, frame);
    if GivesWay(h) {
      var q := Enqueued(h.threads, h.ready, h.running);
      EnqueuedJoins(h.threads, h.ready, h.running);
      JoinedNotEmpty(h.threads, h.ready, h.running, q);
      var s1 := h.(needSchedule := false, ready := q, needSwitch := true);
      assert ScheduleIfNeeded(h) == s1;
      SwitchEffect(s1, h, q, frame);
    }
  }

  lemma JoinedNotEmpty(ths: map<Tid, Thread>, q: seq<Tid>, t: Tid, r: seq<Tid>)
    requires Known(ths, q) && t in ths && Joined(ths, q, t, r)
    ensures r != []
  {}

  lemma SwitchEffect(s1: State, h: State, q: seq<Tid>, frame: Context)
    requires Closed(h) && Known(h.threads, q) && q != [] && Running(h).run && h.reenter == 0 && h.mode == User
    requires s1 == h.(needSchedule := false, ready := q, needSwitch := true)
    ensures Closed(s1) && SwitchedTo(h, q, frame, Dispatch(s1, frame))
  {
    assert q[0] in q;
  }

  // ----- whole events, from user mode

  /** An interrupt taken in user mode: its handler, then the way out of the kernel. */
  lemma InterruptEffect(s: State, irq: Irq, frame: Context) returns (h: State)
    requires Inv(s) && s.mode == User && EventOk(s, Interrupt(irq))
    ensures Closed(h) && Told(s, irq, h) && Exited(h.(reenter := 0), frame, Step(s, Interrupt(irq), frame))
  {
    hide Places, Sorted, Flags, ExitKernel, HandleIrq, Told, Exited;
    h := HandleIrq(s, irq);
    HandlerTells(s, irq, false);
    IrqFrame(s, irq, 0);
    IrqCore(s, irq, false, true);
    assert EnterKernel(s) == s.(reenter := 0);
    ExitEffect(h.(reenter := 0), frame);
  }

  lemma HandlerTells(s: State, irq: Irq, parked: bool)
    requires Core(s, parked) && EventOk(s, Interrupt(irq))
    ensures Told(s, irq, HandleIrq(s, irq))
  {
    if irq.Key? {
      hide Post;
      PostTells(s, irq.target, irq.data, parked);
    }
  }

  lemma PostTells(s: State, t: Tid, data: Message, parked: bool)
    requires Core(s, parked) && t in s.threads
    ensures Told(s, Key(t, data), Post(s, t, data))
  {
    hide Enqueued, Without, Joined, Parted, Places, Sorted;
    if |data| <= 128 {
      var th := s.threads[t];
      var posted := th.(port := th.port + [data], numMsg := (th.numMsg + 1) % 256);
      AppendFrame(s, t, data);
      assert posted.sigWait * {0} == if 0 in th.sigWait then {0} else {};
      if 0 in th.sigWait {
        assert t in s.waiting;
        QueuesOf(s, t, parked);
        SamePriorities(s.threads, s.threads[t := posted], s.ready, t);
        StoreTwice(s.threads, t, posted,
                   posted.(sigRecvd := th.sigRecvd + {0}, sigWait := th.sigWait - {0}, wait := false, ready := true));
      }
    }
  }

  lemma QueuesOf(s: State, t: Tid, parked: bool)
    requires Core(s, parked) && t in s.waiting
    ensures Parted(s.waiting, t, Without(s.waiting, t)) && Without(s.ready, t) == s.ready
    ensures t in s.threads && Joined(s.threads, s.ready, t, Enqueued(s.threads, s.ready, t))
  {
    hide Without, Enqueued, Joined, Parted;
    WithoutParts(s.waiting, t);
    WithoutAbsent(s.ready, t);
    EnqueuedJoins(s.threads, s.ready, t);
  }

  lemma SamePriorities(ths: map<Tid, Thread>, ths': map<Tid, Thread>, q: seq<Tid>, t: Tid)
    requires Known(ths, q) && t in ths && ths'.Keys == ths.Keys
    requires forall x :: x in ths ==> ths'[x].pri == ths[x].pri
    ensures Known(ths', q) && Enqueued(ths', q, t) == Enqueued(ths, q, t)
  {
    assert Priorities(ths', q) == Priorities(ths, q);
  }

  // ----- from the halted processor

  /** The first ready thread runs; a reschedule stays pending. */
  ghost predicate Woken(h: State, r: State)
    requires Closed(h) && h.ready != []
  {
    assert h.ready[0] in h.ready;
    var t := h.ready[0];
    var next := h.threads[t];
    r == h.(mode := User, reenter := 0xFFFF_FFFF, running := t, cpu := if next.launch then Entry(t) else next.kernelEsp,
            ready := h.ready[1..], count := h.quantum,
            threads := h.threads[t := next.(run := true, launch := false, signal := next.signal && next.launch)])
  }

  /** An interrupt taken at the halt: its handler, and nothing more unless it readied a thread. */
  lemma IdleEffect(s: State, irq: Irq, frame: Context) returns (h: State)
    requires Inv(s) && s.mode == Halted && EventOk(s, Interrupt(irq))
    ensures Closed(h) && Told(s, irq, h)
    ensures var r := Step(s, Interrupt(irq), frame); if h.ready == [] then r == h else Woken(h, r)
  {
    hide Places, Sorted, Flags, RunFlag, HandleIrq, Told, Woken, SwitchIn, Wake;
    h := HandleIrq(s, irq);
    HandlerTells(s, irq, true);
    IrqFrame(s, irq, 0);
    WakeIs(s, irq);
    SchedulerSteps.IrqKeepsSchedule(s, irq);
    SwitchInEffect(h);
  }

  lemma SwitchInEffect(h: State)
    requires Closed(h) && h.mode == Halted && h.reenter == 0 && h.needSchedule
    ensures var r := SwitchIn(h); if h.ready == [] then r == h else Woken(h, r)
  {
    if h.ready != [] {
      assert h.ready[0] in h.ready;
      var th := h.threads[h.ready[0]];
      StoreTwice(h.threads, h.ready[0], th.(run := true), th.(run := true, launch := false, signal := th.signal && th.launch));
    }
  }

  // ----- system calls

  /** A system call that is no wait(), or is made by a thread whose uid is not 0. */
  lemma CallEffect(s: State, call: Syscall, frame: Context) returns (h: State)
    requires Inv(s) && s.mode == User && (call.Wait? ==> Running(s).uid != 0)
    ensures Closed(h) && Called(s, call, h) && Exited(h.(reenter := 0), frame, Step(s, Trap(call), frame))
  {
    hide Places, Sorted, Flags, ExitKernel, Exited;
    h := HandleTrap(s, call);
    assert EnterKernel(s) == s.(reenter := 0);
    assert HandleTrap(s.(reenter := 0), call) == h.(reenter := 0);
    ExitEffect(h.(reenter := 0), frame);
  }

  /** The caller of wait() as the wait queue holds it. */
  ghost predicate Waits(s: State, flags: Signals, h: State)
    requires Closed(s)
  {
    && Joined(s.threads, s.waiting, s.running, h.waiting)
    && h == s.(waiting := h.waiting, threads := s.threads[s.running :=
         Running(s).(wait := true, ready := false, sigWait := Running(s).sigWait + flags)])
  }

  /** A wait() that is not the double-linking one: the next ready thread runs, or nobody does. */
  lemma WaitEffect(s: State, flags: Signals, frame: Context) returns (h: State)
    requires Inv(s) && s.mode == User && Running(s).uid == 0 && !DoubleLink(s, Trap(Wait(flags)))
    ensures Closed(h) && Waits(s, flags, h)
    ensures var r := Step(s, Trap(Wait(flags)), frame);
      if h.ready == [] then HaltedFrom(h, frame, r) else SwitchedTo(h.(reenter := 0), h.ready, frame, r)
  {
    hide Enqueued, Joined, Places, Sorted;
    var w := Enqueued(s.threads, s.waiting, s.running);
    EnqueuedJoins(s.threads, s.waiting, s.running);
    h := s.(waiting := w, threads := s.threads[s.running :=
      Running(s).(wait := true, ready := false, sigWait := Running(s).sigWait + flags)]);
    assert EnterKernel(s) == s.(reenter := 0);
    var h0 := h.(reenter := 0);
    WaitExits(s, flags, h0);
    if h.ready != [] {
      SwitchEffect(h0.(needSchedule := false, needSwitch := true), h0, h.ready, frame);
    }
  }

  /** A reschedule pending at a wait() that is not the double-linking one changes nothing but its flag. */
  lemma WaitExits(s: State, flags: Signals, h0: State)
    requires Inv(s) && s.mode == User && Running(s).uid == 0 && !DoubleLink(s, Trap(Wait(flags)))
    requires h0 == WaitForFlags(s.(reenter := 0), flags).(needSwitch := false)
    ensures ScheduleIfNeeded(WaitForFlags(s.(reenter := 0), flags)) == h0.(needSchedule := false, needSwitch := true)
  {
    hide Enqueued, Places, Sorted;
  }

  // ----- consequences

  /** Releasing a key changes nothing but the saved frame; the halted processor stays exactly as it was. */
  lemma KeyReleaseIsQuiet(s: State, frame: Context)
    requires Inv(s)
    ensures s.mode == User && !s.needSchedule ==> Step(s, Interrupt(KeyRelease), frame) == s.(cpu := frame)
    ensures s.mode == Halted ==> Step(s, Interrupt(KeyRelease), frame) == s
  {
    hide Places, Sorted, Flags, RunFlag, Step;
    if s.mode == Halted {
      var h := IdleEffect(s, KeyRelease, frame);
    } else {
      var h := InterruptEffect(s, KeyRelease, frame);
    }
  }

  /** So do a press whose data is over 128 bytes, and every call that finds nothing to do. */
  lemma NothingToDo(s: State, ev: Event, frame: Context)
    requires Inv(s) && s.mode == User && EventOk(s, ev) && !s.needSchedule
    requires match ev
      case Interrupt(Key(_, data)) => |data| > 128
      case Trap(Wait(_)) => Running(s).uid != 0
      case Trap(Cycle) => Running(s).uid != 0 || Running(s).port == []
      case Trap(_) => true
      case _ => false
    ensures Step(s, ev, frame) == s.(cpu := frame)
  {
    hide Places, Sorted, Flags, RunFlag, Step;
    if ev.Interrupt? {
      var h := InterruptEffect(s, ev.irq, frame);
    } else {
      var h := CallEffect(s, ev.call, frame);
    }
  }

  /** A post to a thread that waits for no message is queued, and that is all; 128 bytes still go through. */
  lemma PostOnly(s: State, t: Tid, data: Message, frame: Context)
    requires Inv(s) && t in s.threads && |data| <= 128 && 0 !in s.threads[t].sigWait
    ensures var th := s.threads[t];
      var h := s.(threads := s.threads[t := th.(port := th.port + [data], numMsg := (th.numMsg + 1) % 256)]);
      && (s.mode == User && !s.needSchedule ==> Step(s, Interrupt(Key(t, data)), frame) == h.(cpu := frame))
      && (s.mode == Halted ==> Step(s, Interrupt(Key(t, data)), frame) == h)
  {
    hide Places, Sorted, Flags, RunFlag, Step;
    if s.mode == Halted {
      var h := IdleEffect(s, Key(t, data), frame);
    } else {
      var h := InterruptEffect(s, Key(t, data), frame);
    }
  }

  /** A tick inside the quantum counts, and that is all. */
  lemma TickInside(s: State, frame: Context)
    requires Inv(s) && s.count >= 1
    ensures s.mode == User && !s.needSchedule ==> Step(s, Interrupt(Timer), frame) == s.(cpu := frame, count := s.count - 1)
    ensures s.mode == Halted ==> Step(s, Interrupt(Timer), frame) == s.(count := s.count - 1)
  {
    hide Places, Sorted, Flags, RunFlag, Step;
    if s.mode == Halted {
      var h := IdleEffect(s, Timer, frame);
    } else {
      var h := InterruptEffect(s, Timer, frame);
    }
  }

  /** A post takes the processor from a less urgent runner at once and gives it to the thread that waited. */
  lemma PostPreempts(s: State, t: Tid, data: Message, frame: Context)
    requires Inv(s) && s.mode == User && s.forbid <= 0 && SchedulerSteps.HighestRuns(s)
    requires t in s.threads && 0 in s.threads[t].sigWait && |data| <= 128 && s.threads[t].pri > Running(s).pri
    ensures var r := Step(s, Interrupt(Key(t, data)), frame);
      && r.running == t && r.mode == User && r.cpu == (if s.threads[t].launch then Entry(t) else s.threads[t].kernelEsp)
      && r.count == s.quantum && !r.needSchedule && s.running in r.ready
      && s.running in r.threads && r.threads[s.running].kernelEsp == frame && !r.threads[s.running].run
      && t in r.threads && r.threads[t].run && r.threads[t].port == s.threads[t].port + [data]
  {
    hide Step, Sorted, Flags, RunFlag, Exited;
    var h := InterruptEffect(s, Key(t, data), frame);
    assert s.running != t;
    UrgentFirst(s.threads, s.ready, t, h.ready);
    var h0 := h.(reenter := 0);
    assert GivesWay(h0);
    var q := TakesOver(h0, frame, Step(s, Interrupt(Key(t, data)), frame));
    assert h0.threads[t].pri > h0.threads[h0.running].pri;
    LessUrgentBehind(h0.threads, h0.ready, h0.running, q);
  }

  lemma TakesOver(h: State, frame: Context, r: State) returns (q: seq<Tid>)
    requires Closed(h) && GivesWay(h) && Exited(h, frame, r)
    ensures q != [] && Known(h.threads, q) && Joined(h.threads, h.ready, h.running, q) && SwitchedTo(h, q, frame, r)
  {
    q :| q != [] && Known(h.threads, q) && Joined(h.threads, h.ready, h.running, q) && SwitchedTo(h, q, frame, r);
  }

  /** A thread above all others of a queue joins it in front. */
  lemma UrgentFirst(ths: map<Tid, Thread>, q: seq<Tid>, t: Tid, r: seq<Tid>)
    requires Known(ths, q) && t in ths && Joined(ths, q, t, r) && forall x :: x in q ==> ths[x].pri < ths[t].pri
    ensures r != [] && r[0] == t
  {
    var k :| 0 <= k <= |q| && JoinedAt(ths, q, t, k) && r == q[..k] + [t] + q[k..];
    assert q != [] ==> q[0] in q;
  }

  /** A thread below the head of a queue joins it behind the head. */
  lemma LessUrgentBehind(ths: map<Tid, Thread>, q: seq<Tid>, t: Tid, r: seq<Tid>)
    requires Known(ths, q) && t in ths && Joined(ths, q, t, r) && q != [] && (assert q[0] in q; ths[q[0]].pri > ths[t].pri)
    ensures r != [] && r[0] == q[0] && t in r[1..]
  {
    var k :| 0 <= k <= |q| && JoinedAt(ths, q, t, k) && r == q[..k] + [t] + q[k..];
    assert k > 0 && r[1..][k - 1] == t;
  }

  /** create_thread(): ready to be launched, an empty port, no signals, and nothing else changes. */
  lemma CreateEffect(s: State, t: Tid, pri: int, uid: nat, frame: Context)
    requires Inv(s) && EventOk(s, Create(t, pri, uid))
    ensures var r := Step(s, Create(t, pri, uid), frame);
      && r == s.(ready := r.ready, threads := s.threads[t := Thread(
           pri := pri, uid := uid, run := false, wait := false, ready := true, signal := false, launch := true,
           sigWait := {}, sigRecvd := {}, kernelEsp := Nowhere, port := [], numMsg := 0)])
      && Known(r.threads, s.ready) && Joined(r.threads, s.ready, t, r.ready)
  {
    hide Enqueued, Joined;
    var ths := s.threads[t := Thread(pri, uid, false, false, true, false, true, {}, {}, Nowhere, [], 0)];
    assert Known(ths, s.ready);
    EnqueuedJoins(ths, s.ready, t);
  }

  /** forbid() and permit() count by one and undo each other. */
  lemma ForbidThenPermit(s: State, frame: Context)
    requires Closed(s) && s.mode == User
    ensures Step(s, Forbid, frame) == s.(forbid := s.forbid + 1)
    ensures Step(Step(s, Forbid, frame), Permit, frame) == s == Step(Step(s, Permit, frame), Forbid, frame)
  {}

  /** init() leaves one thread, running and of priority and uid 0, empty queues and no flag set; multitasking is forbidden once. */
  lemma BootState(kernel: Tid)
    ensures R.Boot(kernel).s == State(
      needSchedule := false, expired := false, needSwitch := false, reenter := 0xFFFF_FFFF,
      running := kernel, cpu := Frame(0), mode := User, ready := [], waiting := [], quantum := 10, count := 10, forbid := 1,
      threads := map[kernel := Thread(
        pri := 0, uid := 0, run := true, wait := false, ready := false, signal := false, launch := false,
        sigWait := {}, sigRecvd := {}, kernelEsp := Nowhere, port := [], numMsg := 0)])
  {}

  /** Of the ticks after boot the 11th and the 12th ask for a reschedule, and no other. */
  lemma BootQuantum(kernel: Tid, n: nat)
    requires n > 0
    ensures Closed(R.Boot(kernel).s) && (SchedulerSteps.ExpiresAt(R.Boot(kernel).s, n) <==> n == 11 || n == 12)
  {
    SchedulerSteps.QuantumCount(R.Boot(kernel).s, n);
  }
}
