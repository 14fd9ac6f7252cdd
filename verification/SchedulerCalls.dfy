/**
 * What one call of the main thread owes to an earlier one: a wait in which no task timed out
 * makes the following work() find every due task done, and an aborted call can leave done_tasks
 * filled, which the next call for that group does not survive.
 */
module SchedulerCalls {
  import opened Scheduling
  import opened SchedulerControl
  import opened SchedulerTiming

  // ---- wait_for_current_tasks, then work -----------------------------------------------------

  /** If r is due at x, its tasks from lo to hi are done. */
  ghost predicate Free(flags: set<Task>, x: int, r: Rate, lo: nat, hi: nat) {
    Due(r, x) ==> forall i: nat :: lo <= i < hi ==> Task(r, i) !in flags
  }

  ghost predicate SlowerFree(sys: System, flags: set<Task>, x: int, r: Rate) {
    forall q :: Before(r, q) ==> Free(flags, x, q, 0, sys.sizes.Get(q))
  }

  ghost predicate WaitOk(sys: System, s: State) {
    match s.pc
    case Waiting(r, i, clean) => clean ==> SlowerFree(sys, s.flags, s.clock, r) && Free(s.flags, s.clock, r, 0, i)
    case Waited(clean) => clean ==> forall q :: Free(s.flags, s.clock, q, 0, sys.sizes.Get(q))
    case Entering(now, r) => s.calm ==> SlowerFree(sys, s.flags, now, r) && Free(s.flags, now, r, 0, sys.sizes.Get(r))
    case Checking(now, r, i) => Due(r, now) && (s.calm ==> SlowerFree(sys, s.flags, now, r) && Free(s.flags, now, r, i, sys.sizes.Get(r)))
    case Asking(now, r, i) => !s.calm && Due(r, now)
    case Rechecking(now, r, i) => !s.calm && Due(r, now)
    case Switching(now, r, _) => s.calm ==> SlowerFree(sys, s.flags, now, r)
    case Ticking(now, r, _, _) => s.calm ==> SlowerFree(sys, s.flags, now, r)
    case Dispatching(now, r, _) => s.calm ==> SlowerFree(sys, s.flags, now, r)
    case _ => true
  }

  /** Marking tasks of the group under way does not touch slower groups. */
  lemma MarkFree(sys: System, flags: set<Task>, x: int, r: Rate, t: Task)
    requires SlowerFree(sys, flags, x, r) && t.rate == r
    ensures SlowerFree(sys, flags + {t}, x, r)
  {
    forall q | Before(r, q) ensures Free(flags + {t}, x, q, 0, sys.sizes.Get(q)) {
      assert Free(flags, x, q, 0, sys.sizes.Get(q));
    }
  }

  /** Tasks that finish keep everything free. */
  lemma FewerFlags(flags: set<Task>, less: set<Task>, x: int, r: Rate, lo: nat, hi: nat)
    requires less <= flags && Free(flags, x, r, lo, hi)
    ensures Free(less, x, r, lo, hi)
  {
  }

  lemma WorkerWait(sys: System, s: State, a: Action)
    requires ByWorker(a) && WaitOk(sys, s)
    ensures WaitOk(sys, Step(sys, s, a))
  {
    hide Free, Step, Groups.Get;
    var n := Step(sys, s, a);
    WorkerFrame(sys, s, a);
    WorkerFlags(sys, s, a);
    forall x, r, lo, hi | Free(s.flags, x, r, lo, hi) ensures Free(n.flags, x, r, lo, hi) {
      FewerFlags(s.flags, n.flags, x, r, lo, hi);
    }
  }

  lemma EnterWait(sys: System, s: State)
    requires WaitOk(sys, s) && s.pc.Entering?
    ensures WaitOk(sys, EnterStep(s, s.pc.now, s.pc.rate))
  {
    hide Due, Free;
    var q := if s.pc.rate == Fast then Medium else Slow;
    assert s.pc.rate != Slow ==> Before(s.pc.rate, q);
  }

  lemma CheckWait(sys: System, s: State)
    requires WaitOk(sys, s) && (s.pc.Checking? || s.pc.Rechecking?)
    ensures WaitOk(sys, MainStep(sys, s))
  {
    hide Due, Groups.Get, Groups.Set, SlowerFree, EnterStep, WaitStep, SwitchStep, SwitchTickStep, DispatchStep;
  }

  lemma ServeWait(sys: System, s: State)
    requires Control(sys, s) && WaitOk(sys, s) && (s.pc.Switching? || s.pc.Ticking?)
    ensures WaitOk(sys, MainStep(sys, s))
  {
    hide JobsOk, LinksOk, Single, FlagsOk, Groups.Get, Groups.Set, OnSwitch, Due, Ascending, Free, SlowerFree, EnterStep, WaitStep, CheckStep, RecheckStep, DispatchStep;
    if s.pc.Switching? && s.calm && s.pc.i < |s.done.Get(s.pc.rate)| {
      MarkFree(sys, s.flags, s.pc.now, s.pc.rate, s.done.Get(s.pc.rate)[s.pc.i]);
    }
  }

  lemma DispatchWait(sys: System, s: State)
    requires WaitOk(sys, s) && s.pc.Dispatching?
    ensures WaitOk(sys, DispatchStep(s, s.pc.now, s.pc.rate, s.pc.i))
  {
    hide Due, Free, Groups.Set;
    var q := if s.pc.rate == Fast then Medium else Slow;
    assert s.pc.rate != Slow ==> Before(s.pc.rate, q);
  }

  lemma WaitWait(sys: System, s: State)
    requires WaitOk(sys, s) && s.pc.Waiting?
    ensures WaitOk(sys, WaitStep(sys, s, s.pc.rate, s.pc.i, s.pc.clean))
  {
    hide Due;
  }

  lemma MainWait(sys: System, s: State)
    requires Control(sys, s) && WaitOk(sys, s)
    ensures WaitOk(sys, MainStep(sys, s))
  {
    hide Control, EnterStep, CheckStep, RecheckStep, SwitchStep, SwitchTickStep, DispatchStep, WaitStep, WaitOk;
    match s.pc
    case Entering(_, _) => EnterWait(sys, s);
    case Checking(_, _, _) => CheckWait(sys, s);
    case Rechecking(_, _, _) => CheckWait(sys, s);
    case Switching(_, _, _) => ServeWait(sys, s);
    case Ticking(_, _, _, _) => ServeWait(sys, s);
    case Dispatching(_, _, _) => DispatchWait(sys, s);
    case Waiting(_, _, _) => WaitWait(sys, s);
    case _ =>
  }

  lemma StepWait(sys: System, s: State, a: Action)
    requires Control(sys, s) && WaitOk(sys, s)
    ensures WaitOk(sys, Step(sys, s, a))
  {
    hide Control, MainStep, Due;
    if ByWorker(a) {
      WorkerWait(sys, s, a);
    } else if a.Main? {
      MainWait(sys, s);
    }
  }

  /** The last call of work() in the run followed a wait in which nothing timed out. */
  function AfterCleanWait(sys: System, s: State, acts: seq<Action>): bool {
    if acts == [] then s.calm
    else
      var before := acts[..|acts| - 1];
      var pc := Run(sys, s, before).pc;
      if acts[|acts| - 1].Call? && (pc.Idle? || pc.Waited?) then pc == Waited(true) else AfterCleanWait(sys, s, before)
  }

  /** The last word on keep_working: start() and stop() set it, a handler that stops clears it. */
  function GoesOn(sys: System, s: State, acts: seq<Action>): bool {
    if acts == [] then s.keepWorking
    else
      var before, a := acts[..|acts| - 1], acts[|acts| - 1];
      if a.SetKeepWorking? then a.on
      else if Stopped(sys, Run(sys, s, before), a) then false
      else GoesOn(sys, s, before)
  }

  /** The handler answers, in a call or in a wait, that the scheduler is to stop. */
  predicate Stopped(sys: System, s: State, a: Action) {
    || (a == TimedOut(false) && s.pc.Asking?)
    || (a == WaitTimedOut(false) && s.pc.Waiting? && Due(s.pc.rate, s.clock) && Task(s.pc.rate, s.pc.i) in s.flags && sys.Has(Task(s.pc.rate, s.pc.i)))
  }

  lemma KeepStep(sys: System, s: State, a: Action)
    ensures Step(sys, s, a).keepWorking == if a.SetKeepWorking? then a.on else if Stopped(sys, s, a) then false else s.keepWorking
  {
    hide Groups.Get, Groups.Set, OnSwitch, Due;
    if ByWorker(a) { WorkerFrame(sys, s, a); }
  }

  /** keep_working over every run: the main loop goes on until it is told to stop. */
  lemma {:induction false} KeepWorkingAsSet(sys: System, s: State, acts: seq<Action>)
    ensures Run(sys, s, acts).keepWorking == GoesOn(sys, s, acts)
  {
    hide Step, Stopped;
    if acts != [] {
      KeepWorkingAsSet(sys, s, acts[..|acts| - 1]);
      KeepStep(sys, Run(sys, s, acts[..|acts| - 1]), acts[|acts| - 1]);
    }
  }

  lemma CalmStep(sys: System, s: State, a: Action)
    ensures Step(sys, s, a).calm == if a.Call? && (s.pc.Idle? || s.pc.Waited?) then s.pc == Waited(true) else s.calm
  {
    hide Groups.Get, Groups.Set, OnSwitch, Due;
    if ByWorker(a) { WorkerFrame(sys, s, a); }
  }

  /**
   * wait_for_current_tasks waits on exactly the groups that the next work() checks: after a wait
   * in which nothing timed out, that call never turns to the timeout handler, whatever the
   * workers do meanwhile.
   */
  lemma {:induction false} CalmCall(sys: System, clock: int, threads: nat, acts: seq<Action>)
    ensures var s := Run(sys, Init(sys, clock, threads), acts);
      && WaitOk(sys, s) && s.calm == AfterCleanWait(sys, Init(sys, clock, threads), acts)
      && (AfterCleanWait(sys, Init(sys, clock, threads), acts) ==> !s.pc.Asking? && !s.pc.Rechecking?)
  {
    hide Control, Step, Free, Due;
    if acts != [] {
      CalmStep(sys, Run(sys, Init(sys, clock, threads), acts[..|acts| - 1]), acts[|acts| - 1]);
      CalmCall(sys, clock, threads, acts[..|acts| - 1]);
      RunControl(sys, clock, threads, acts[..|acts| - 1]);
      StepWait(sys, Run(sys, Init(sys, clock, threads), acts[..|acts| - 1]), acts[|acts| - 1]);
    }
  }

  // ---- done_tasks after an aborted call ------------------------------------------------------

  ghost predicate Inside(pc: Pc, r: Rate) { InCall(pc) && pc.rate == r }

  /** done_tasks of every group is empty except during a call for that group. */
  ghost predicate EmptyOnEntry(s: State) { forall r :: !Inside(s.pc, r) ==> s.done.Get(r) == [] }

  /** Outside a call for it, the group has tasks left in done_tasks. */
  ghost predicate Stuck(s: State, r: Rate) { !Inside(s.pc, r) && s.done.Get(r) != [] }

  /** The handler stops a call that has already found a task done. */
  ghost predicate Aborts(s: State, a: Action) {
    a == TimedOut(false) && s.pc.Asking? && s.done.Get(s.pc.rate) != []
  }

  /** The main thread's steps change done_tasks only of the group whose call is under way. */
  lemma MainStuck(sys: System, s: State, r: Rate)
    requires !Inside(s.pc, r)
    ensures MainStep(sys, s).done.Get(r) == s.done.Get(r)
    ensures s.done.Get(r) != [] ==> !Inside(MainStep(sys, s).pc, r)
  {
    hide Groups.Get, Groups.Set, CheckStep, RecheckStep, SwitchStep, SwitchTickStep, Due, AfterGroup;
    match s.pc
    case Checking(now, q, i) => OtherGroup(sys, s, r);
    case Rechecking(now, q, i) => OtherGroup(sys, s, r);
    case Switching(now, q, i) => OtherGroup(sys, s, r);
    case Ticking(now, q, i, _) => OtherGroup(sys, s, r);
    case Dispatching(now, q, i) => AfterOutside(now, q, r);
    case Entering(now, q) => AfterOutside(now, q, r);
    case _ =>
  }

  lemma OtherGroup(sys: System, s: State, r: Rate)
    requires (s.pc.Checking? || s.pc.Rechecking? || s.pc.Switching? || s.pc.Ticking?) && s.pc.rate != r
    ensures MainStep(sys, s).done.Get(r) == s.done.Get(r) && !Inside(MainStep(sys, s).pc, r)
  {
    hide Groups.Get, Groups.Set, OnSwitch;
  }

  lemma AfterOutside(now: int, q: Rate, r: Rate)
    ensures !Inside(AfterGroup(now, q), r)
  {
  }

  lemma MainLeaves(sys: System, s: State, r: Rate)
    requires Control(sys, s) && Inside(s.pc, r) && !Inside(MainStep(sys, s).pc, r)
    ensures MainStep(sys, s).done.Get(r) == []
  {
    hide Control, MainStep, Groups.Get;
    if s.pc.Dispatching? { LeavesEmpty(sys, s, r); } else { SamePlace(sys, s); StaysInside(sys, s); }
  }

  lemma LeavesEmpty(sys: System, s: State, r: Rate)
    requires s.pc.Dispatching? && s.pc.rate == r && !Inside(MainStep(sys, s).pc, r)
    ensures MainStep(sys, s).done.Get(r) == []
  {
    hide Groups.Get, Groups.Set;
  }

  lemma StaysInside(sys: System, s: State)
    requires Control(sys, s) && InCall(s.pc) && !s.pc.Dispatching?
    ensures InCall(MainStep(sys, s).pc)
  {
    hide JobsOk, LinksOk, Single, FlagsOk, Groups.Get, Groups.Set, OnSwitch, Due, InGroup;
    MainControl(sys, s);
  }

  /** done_tasks stays empty on entry up to the first such abort, and is not empty after it. */
  lemma EmptyUntilAbort(sys: System, s: State, a: Action)
    requires Control(sys, s) && EmptyOnEntry(s)
    ensures EmptyOnEntry(Step(sys, s, a)) <==> !Aborts(s, a)
    ensures Aborts(s, a) ==> Stuck(Step(sys, s, a), s.pc.rate)
  {
    hide Control, Groups.Get, MainStep, Due;
    if ByWorker(a) {
      WorkerFrame(sys, s, a);
    } else if a.Main? {
      forall r | !Inside(MainStep(sys, s).pc, r) ensures MainStep(sys, s).done.Get(r) == [] {
        if Inside(s.pc, r) { MainLeaves(sys, s, r); } else { MainStuck(sys, s, r); }
      }
    }
  }

  /** A stuck group stays stuck with the same tasks, whatever happens. */
  lemma StepStuck(sys: System, s: State, a: Action, r: Rate)
    requires Stuck(s, r)
    ensures Stuck(Step(sys, s, a), r) && Step(sys, s, a).done.Get(r) == s.done.Get(r)
  {
    hide Groups.Get, MainStep, Due;
    if ByWorker(a) {
      WorkerFrame(sys, s, a);
    } else if a.Main? {
      MainStuck(sys, s, r);
    }
  }

  /**
   * After an abort that left tasks behind, the group never runs again: in every continuation
   * done_tasks keeps these tasks, and the next call for the group that is due fails its entry
   * assertion.
   */
  lemma {:induction false} StuckForEver(sys: System, s: State, acts: seq<Action>, r: Rate)
    requires Stuck(s, r)
    ensures var n := Run(sys, s, acts);
      && Stuck(n, r) && n.done.Get(r) == s.done.Get(r)
      && (n.pc.Entering? && n.pc.rate == r && Due(r, n.pc.now) ==> MainStep(sys, n).pc == Failed(LeftOver))
  {
    hide Step, Groups.Get, Due;
    if acts != [] {
      StuckForEver(sys, s, acts[..|acts| - 1], r);
      StepStuck(sys, Run(sys, s, acts[..|acts| - 1]), acts[|acts| - 1], r);
    }
  }

  /** No action of the run stops a call that has found a task done. */
  ghost predicate AbortFree(sys: System, s: State, acts: seq<Action>) {
    forall k :: 0 <= k < |acts| ==> !Aborts(Run(sys, s, acts[..k]), acts[k])
  }

  lemma AbortFreeStep(sys: System, s: State, acts: seq<Action>)
    requires acts != []
    ensures var before, a := acts[..|acts| - 1], acts[|acts| - 1];
      AbortFree(sys, s, acts) <==> AbortFree(sys, s, before) && !Aborts(Run(sys, s, before), a)
  {
    hide Run, Aborts;
    var before := acts[..|acts| - 1];
    assert forall k :: 0 <= k < |before| ==> acts[..k] == before[..k];
  }

  /**
   * done_tasks is empty outside calls if and only if no call has been stopped after it had found a
   * task done; in that case no assertion of run_periodic_tasks has failed.
   */
  lemma {:induction false} EmptyIffAbortFree(sys: System, clock: int, threads: nat, acts: seq<Action>)
    ensures var s := Run(sys, Init(sys, clock, threads), acts);
      && (EmptyOnEntry(s) <==> AbortFree(sys, Init(sys, clock, threads), acts))
      && (AbortFree(sys, Init(sys, clock, threads), acts) ==> !s.pc.Failed?)
  {
    hide Control, Step, AbortFree, Aborts, Groups.Get;
    var s0 := Init(sys, clock, threads);
    if acts == [] {
      NothingAborted(sys, s0);
      NothingDone(sys, clock, threads);
    } else {
      var before, a := acts[..|acts| - 1], acts[|acts| - 1];
      EmptyIffAbortFree(sys, clock, threads, before);
      AbortFreeStep(sys, s0, acts);
      RunControl(sys, clock, threads, before);
      var s := Run(sys, s0, before);
      StepControl(sys, s, a);
      if EmptyOnEntry(s) {
        EmptyUntilAbort(sys, s, a);
        FailsOnEntry(sys, s, a);
      } else {
        var r :| !Inside(s.pc, r) && s.done.Get(r) != [];
        StepStuck(sys, s, a, r);
      }
    }
  }

  lemma NothingAborted(sys: System, s: State)
    ensures AbortFree(sys, s, [])
  {
  }

  lemma NothingDone(sys: System, clock: int, threads: nat)
    ensures EmptyOnEntry(Init(sys, clock, threads))
  {
  }

  lemma FailsOnEntry(sys: System, s: State, a: Action)
    requires Control(sys, s) && EmptyOnEntry(s) && !s.pc.Failed?
    ensures !Step(sys, s, a).pc.Failed?
  {
    hide JobsOk, LinksOk, Single, FlagsOk, Groups.Get, Groups.Set, OnSwitch, Due, InGroup;
    if ByWorker(a) {
      WorkerFrame(sys, s, a);
    } else if a.Main? {
      MainControl(sys, s);
    }
  }
}
