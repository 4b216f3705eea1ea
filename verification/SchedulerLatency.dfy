/**
 When a more urgent thread that is already ready gets the processor from ticks alone: a
 reschedule is asked for only at the end of a quantum, and a request made while
 multitasking is forbidden is lost.
 */
module SchedulerLatency {
  import opened Common
  import opened Lists
  import opened Scheduler
  import opened SchedulerInvariant
  import opened SchedulerSteps
  import opened SchedulerRuns
  import opened SchedulerReach

  // ----- a spent quantum

  /** Once both requests of a quantum are spent a tick changes nothing. */
  lemma StaleTick(s: State, frame: Context)
    requires Inv(s) && s.mode == User && s.count == -2 && !s.needSchedule
    ensures Step(s, Interrupt(Timer), frame) == s.(cpu := frame)
  {
    hide Places, Sorted, Flags, RunFlag;
  }

  /** So the runner keeps the processor for any number of ticks, whoever is ready. */
  lemma {:induction false} StaleTicks(s: State, n: nat, frame: Context)
    requires Inv(s) && s.mode == User && s.count == -2 && !s.needSchedule
    ensures TickSteps(s, n, frame) == if n == 0 then s else s.(cpu := frame)
    decreases n
  {
    hide Step, Inv;
    InvAtRest(s);
    if n > 0 {
      var u := TickSteps(s, n - 1, frame);
      StaleTicks(s, n - 1, frame);
      CpuKeepsInv(s, frame);
      StaleTick(u, frame);
      assert u.(cpu := frame) == s.(cpu := frame);
    }
  }

  lemma CpuKeepsInv(s: State, frame: Context)
    requires Inv(s)
    ensures Closed(s) && Inv(s.(cpu := frame))
  {}

  // ----- a quantum that still runs, or a request not yet served

  /** A tick ends in user mode: schedule() asks for a switch only when somebody is ready. */
  lemma TickStaysUser(s: State, frame: Context)
    requires Inv(s) && s.mode == User
    ensures Step(s, Interrupt(Timer), frame).mode == User
  {
    hide Inv, ScheduleIfNeeded, Dispatch, Known;
    InvAtRest(s);
    var h := HandleIrq(EnterKernel(s), Timer);
    ScheduleShape(h);
    SwitchNeedsReady(h);
    DispatchStaysUser(ScheduleIfNeeded(h), frame);
  }

  lemma DispatchStaysUser(s: State, frame: Context)
    requires Closed(s) && s.mode == User && (s.needSwitch ==> s.ready != [])
    ensures Dispatch(s, frame).mode == User
  {
    hide SwitchOut, Restore, TakeHead;
    if s.needSwitch {
      SwitchOutReady(s, frame);
      RestoreFrame(TakeHead(SwitchOut(s, frame)));
    }
  }

  lemma SwitchOutReady(s: State, frame: Context)
    requires Closed(s) && s.ready != []
    ensures Closed(SwitchOut(s, frame)) && SwitchOut(s, frame).ready != []
  {}

  lemma SwitchNeedsReady(s: State)
    requires Closed(s) && !s.needSwitch
    ensures var r := ScheduleIfNeeded(s); r.needSwitch ==> r.ready != []
  {
    InsertHas(s.ready, Slot(Priorities(s.threads, s.ready), Running(s).pri), s.running);
  }

  /** One tick: it reschedules, or the quantum gets shorter by one. */
  lemma TickProgress(s: State, frame: Context)
    requires Inv(s) && s.mode == User && s.forbid <= 0 && (s.count >= -1 || s.needSchedule)
    ensures var r := Step(s, Interrupt(Timer), frame);
      && Inv(r) && r.mode == User && r.forbid == s.forbid
      && (HighestRuns(r) || (s.count >= 1 && r.count == s.count - 1))
  {
    hide Inv, HighestRuns, ExitKernel;
    StepInv(s, Interrupt(Timer), frame);
    TickStaysUser(s, frame);
    InvAtRest(s);
    var h := HandleIrq(EnterKernel(s), Timer);
    ExitShape(h, frame);
    if h.needSchedule {
      RescheduleRestoresHighest(s, Timer, frame);
    } else {
      EarlyTick(s, frame);
    }
  }

  lemma InvAtRest(s: State)
    requires Inv(s)
    ensures Closed(s) && s.count >= -2 && !s.needSwitch && (s.mode == User ==> s.reenter == WORDS - 1)
  {}

  lemma {:induction false} TicksProgress(s: State, k: nat, frame: Context)
    requires Inv(s) && s.mode == User && s.forbid <= 0 && (s.count >= -1 || s.needSchedule)
    ensures var u := TickSteps(s, k, frame);
      && Inv(u) && u.mode == User && u.forbid == s.forbid
      && (HighestRuns(u) || (k <= Max(s.count, 0) && u.count == s.count - k && (k == 0 ==> u == s)))
    decreases k
  {
    hide Inv, Step, HighestRuns;
    InvAtRest(s);
    if k > 0 {
      TicksProgress(s, k - 1, frame);
      var u := TickSteps(s, k - 1, frame);
      if HighestRuns(u) {
        TickStaysUser(u, frame);
        TickKeepsHighest(u, frame);
      } else {
        TickProgress(u, frame);
      }
    }
  }

  lemma TickKeepsHighest(s: State, frame: Context)
    requires Inv(s) && s.mode == User && HighestRuns(s) && s.forbid <= 0
    ensures var r := Step(s, Interrupt(Timer), frame); Inv(r) && HighestRuns(r) && r.forbid == s.forbid
  {
    hide Inv, HighestRuns, ExitKernel;
    StepInv(s, Interrupt(Timer), frame);
    HighestPriorityRuns(s, Interrupt(Timer), frame);
    InvAtRest(s);
    ExitShape(HandleIrq(EnterKernel(s), Timer), frame);
  }

  /**
   With multitasking permitted, after one tick more than the quantum has left no ready thread is
   above the runner if and only if none was before, or a reschedule is pending, or the quantum
   still has a request to make.
   */
  lemma TicksDecide(s: State, n: nat, frame: Context)
    requires Inv(s) && s.mode == User && s.forbid <= 0 && n > Max(s.count, 0)
    ensures HighestRuns(TickSteps(s, n, frame)) <==> HighestRuns(s) || s.needSchedule || s.count >= -1
  {
    hide Inv;
    InvAtRest(s);
    if s.count >= -1 || s.needSchedule {
      TicksProgress(s, n, frame);
    } else {
      StaleTicks(s, n, frame);
    }
  }

  // ----- a thread that ticks never run, in a run from boot

  /** While multitasking is forbidden a tick counts, and its request is cleared unserved. */
  lemma ForbiddenTick(s: State, frame: Context)
    requires Inv(s) && s.mode == User && s.forbid > 0
    ensures var r := Step(s, Interrupt(Timer), frame);
      r == s.(count := Max(s.count - 1, -2), expired := r.expired, needSchedule := false, cpu := frame)
  {
    hide Inv, ScheduleIfNeeded, Dispatch;
    InvAtRest(s);
    var h := HandleIrq(EnterKernel(s), Timer);
    ScheduleShape(h);
    DispatchShape(ScheduleIfNeeded(h), frame);
  }

  lemma {:induction false} ForbiddenTicks(m: Machine, n: nat, f: nat) returns (r: Machine)
    requires Good(m) && m.s.mode == User && m.s.forbid > 0 && n > 0
    ensures Runs(m, TickCalls(n, f), r) && Good(r)
    ensures r.s == m.s.(count := Max(m.s.count - n, -2), expired := r.s.expired, needSchedule := false, cpu := r.s.cpu)
    decreases n
  {
    hide Good, Advance, Step, Inv;
    var c := Call(Interrupt(Timer), f);
    GoodParts(m);
    InvAtRest(m.s);
    ForbiddenTick(m.s, Frame(f));
    TickAdvances(m, f);
    AdvanceGood(m, c);
    assert TickCalls(n, f)[0] == c && TickCalls(n, f)[1..] == TickCalls(n - 1, f);
    if n == 1 {
      r := Advance(m, c);
      RunsOne(m, c, r);
      assert TickCalls(1, f) == [c];
    } else {
      r := ForbiddenTicks(Advance(m, c), n - 1, f);
    }
  }

  /**
   The keyboard thread is created, twelve ticks pass before permit(): from then on, with
   multitasking permitted and that thread ready and more urgent, no number of ticks runs it.
   */
  lemma NeverByTicks(kernel: Tid, t: Tid, f: nat, n: nat, frame: Context) returns (r: Machine)
    requires kernel != t
    ensures Runs(Boot(kernel), [Call(Create(t, 15, 0), f)] + TickCalls(12, f) + [Call(Permit, f)], r)
    ensures Good(r) && r.s.forbid == 0 && t in r.s.ready && !HighestRuns(r.s)
    ensures TickSteps(r.s, n, frame).running == kernel && TickSteps(r.s, n, frame).ready == [t]
  {
    hide Good, Runs, Inv;
    var m, c, p := Boot(kernel), Call(Create(t, 15, 0), f), Call(Permit, f);
    BootGood(kernel);
    GoodParts(m);
    var m1 := Advance(m, c);
    AdvanceGood(m, c);
    CreatedFirst(kernel, t, f);
    var m2 := ForbiddenTicks(m1, 12, f);
    GoodParts(m2);
    PermitAdvances(m2, f);
    r := Advance(m2, p);
    AdvanceGood(m2, p);
    GoodParts(r);
    RunsOne(m, c, m1);
    RunsOne(m2, p, r);
    RunsAppend(m, [c], m1, TickCalls(12, f), m2);
    RunsAppend(m, [c] + TickCalls(12, f), m2, [p], r);
    StaleTicks(r.s, n, frame);
    assert r.s.threads[t].pri == 15;
  }

  lemma CreatedFirst(kernel: Tid, t: Tid, f: nat)
    requires kernel != t
    ensures var s := Advance(Boot(kernel), Call(Create(t, 15, 0), f)).s;
      && s.mode == User && s.forbid == 1 && s.count == STD_TS_QUANTUM && s.ready == [t] && s.running == kernel
      && t in s.threads && s.threads[t].pri == 15 && kernel in s.threads && s.threads[kernel].pri == 0
  {}

  lemma PermitAdvances(m: Machine, f: nat)
    requires Tracked(m) && m.s.mode == User
    ensures Admitted(m, Call(Permit, f)) && Advance(m, Call(Permit, f)).s == m.s.(forbid := m.s.forbid - 1)
  {}
}
