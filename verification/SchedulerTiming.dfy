/**
 * Runs in which every due task is found done: in which cycle each switch tick comes, and to which
 * cycle each instance belongs.
 */
module SchedulerTiming {
  import opened Scheduling
  import opened SchedulerControl
  import opened SchedulerEvents

  /** In this run no task is ever found still at work when its group is due. */
  predicate Punctual(acts: seq<Action>) { forall i :: 0 <= i < |acts| ==> !acts[i].TimedOut? }

  // ---- due cycles ----------------------------------------------------------------------------

  /** The last cycle before x in which rate r is due. */
  function Prev(r: Rate, x: int): int { (x - 1) / Period(r) * Period(r) }

  lemma PrevMedium(x: int)
    ensures var p := (x - 1) / 10 * 10; p % 10 == 0 && x - 10 <= p < x && (x % 10 == 0 ==> x / 10 * 10 == x && p == x - 10) && (x % 10 != 0 ==> x / 10 * 10 == p)
  {
  }

  lemma PrevSlow(x: int)
    ensures var p := (x - 1) / 100 * 100; p % 100 == 0 && x - 100 <= p < x && (x % 100 == 0 ==> x / 100 * 100 == x && p == x - 100) && (x % 100 != 0 ==> x / 100 * 100 == p)
  {
  }

  lemma PrevFacts(r: Rate, x: int)
    ensures Prev(r, x) % Period(r) == 0 && x - Period(r) <= Prev(r, x) < x
    ensures Due(r, x) ==> Prev(r, x + 1) == x && Prev(r, x) == x - Period(r)
    ensures !Due(r, x) ==> Prev(r, x + 1) == Prev(r, x)
  {
    match r
    case Fast =>
    case Medium => PrevMedium(x);
    case Slow => PrevSlow(x);
  }

  predicate Before(r: Rate, q: Rate) { Period(r) < Period(q) }

  predicate InCycle(pc: Pc) {
    pc.Entering? || pc.Checking? || pc.Asking? || pc.Rechecking? || pc.Switching? || pc.Ticking? || pc.Dispatching?
  }

  predicate InCall(pc: Pc) { InCycle(pc) && !pc.Entering? }

  ghost predicate TimeOk(s: State) {
    && (InCycle(s.pc) ==> s.clock == s.pc.now + 1)
    && (InCall(s.pc) ==> Due(s.pc.rate, s.pc.now))
    && !s.pc.Rechecking? && !s.pc.Failed?
    && forall r :: !(InCall(s.pc) && s.pc.rate == r) ==> s.done.Get(r) == []
  }

  lemma EnterTime(s: State)
    requires TimeOk(s) && s.pc.Entering?
    ensures TimeOk(EnterStep(s, s.pc.now, s.pc.rate))
  {
    hide Groups.Get, Due;
  }

  lemma CheckTime(sys: System, s: State)
    requires TimeOk(s) && s.pc.Checking?
    ensures TimeOk(CheckStep(sys, s, s.pc.now, s.pc.rate, s.pc.i))
  {
    hide Groups.Get, Groups.Set, Due;
  }

  lemma ServeTime(sys: System, s: State)
    requires Control(sys, s) && TimeOk(s) && (s.pc.Switching? || s.pc.Ticking?)
    ensures TimeOk(MainStep(sys, s))
  {
    hide JobsOk, LinksOk, Single, Queued, Executing, Groups.Get, Groups.Set, OnSwitch, Due, InGroup, FlagsOk, EnterStep, CheckStep, RecheckStep, DispatchStep, WaitStep;
    MainControl(sys, s);
  }

  lemma DispatchTime(s: State)
    requires TimeOk(s) && s.pc.Dispatching?
    ensures TimeOk(DispatchStep(s, s.pc.now, s.pc.rate, s.pc.i))
  {
    hide Groups.Get, Groups.Set, Due;
  }

  lemma WaitTime(sys: System, s: State)
    requires TimeOk(s) && s.pc.Waiting?
    ensures TimeOk(WaitStep(sys, s, s.pc.rate, s.pc.i, s.pc.clean))
  {
    hide Groups.Get, Due;
  }

  lemma MainTime(sys: System, s: State)
    requires Control(sys, s) && TimeOk(s)
    ensures TimeOk(MainStep(sys, s))
  {
    hide Control, EnterStep, CheckStep, RecheckStep, SwitchStep, SwitchTickStep, DispatchStep, WaitStep, TimeOk;
    assert !s.pc.Rechecking? by { NoRecheck(s); }
    match s.pc
    case Entering(_, _) => EnterTime(s);
    case Checking(_, _, _) => CheckTime(sys, s);
    case Switching(_, _, _) => ServeTime(sys, s);
    case Ticking(_, _, _, _) => ServeTime(sys, s);
    case Dispatching(_, _, _) => DispatchTime(s);
    case Waiting(_, _, _) => WaitTime(sys, s);
    case _ =>
  }

  lemma NoRecheck(s: State)
    requires TimeOk(s)
    ensures !s.pc.Rechecking?
  {
  }

  lemma MarksDone(sys: System, s: State)
    requires Control(sys, s) && s.pc.Switching? && s.pc.i < |s.done.Get(s.pc.rate)|
    ensures s.done.Get(s.pc.rate)[s.pc.i] !in s.flags
  {
    hide JobsOk, LinksOk, Single, Groups.Get, Groups.Set, InGroup;
    MainControl(sys, s);
  }

  /** Inside a call, and outside the cycle, the main thread stays in its group and cycle. */
  lemma SamePlace(sys: System, s: State)
    requires Control(sys, s) && !s.pc.Entering? && !s.pc.Dispatching?
    ensures var n := MainStep(sys, s);
      && n.clock == s.clock && (InCycle(n.pc) <==> InCycle(s.pc))
      && (InCycle(s.pc) ==> n.pc.now == s.pc.now && n.pc.rate == s.pc.rate)
      && (n.pc.Dispatching? ==> s.pc.Switching? && n.pc.i == 0)
  {
    hide Control, Groups.Get, Groups.Set, OnSwitch, Due;
    if s.pc.Switching? && s.pc.i < |s.done.Get(s.pc.rate)| { MarksDone(sys, s); }
  }

  lemma StepTime(sys: System, s: State, a: Action)
    requires Control(sys, s) && TimeOk(s) && !a.TimedOut?
    ensures TimeOk(Step(sys, s, a))
  {
    hide JobsOk, LinksOk, Single, Queued, Executing, Groups.Get, MainStep, Due, InGroup, FlagsOk;
    if ByWorker(a) {
      WorkerFrame(sys, s, a);
    } else if a.Main? {
      MainTime(sys, s);
    }
  }

  // ---- the cycle of the last switch tick -----------------------------------------------------

  /** In the current cycle the turn of task t on connection c is over. */
  ghost predicate Turned(pc: Pc, done: Groups<seq<Task>>, t: Task, c: nat) {
    InCycle(pc) && (Before(t.rate, pc.rate) || (t.rate == pc.rate && t in Switched(pc, done, c)))
  }

  /** The cycle of the last turn. */
  ghost function Last(s: State, t: Task, c: nat): int {
    Prev(t.rate, if InCycle(s.pc) && !Turned(s.pc, s.done, t, c) then s.pc.now else s.clock)
  }

  lemma TickTurn(sys: System, s: State, t: Task, c: nat)
    requires Control(sys, s) && s.pc.Ticking? && c < |sys.conns|
    ensures InCycle(MainStep(sys, s).pc) && MainStep(sys, s).pc.now == s.pc.now && MainStep(sys, s).clock == s.clock
    ensures Turned(MainStep(sys, s).pc, MainStep(sys, s).done, t, c) <==> Turned(s.pc, s.done, t, c) || TickAt(sys, s, c, t)
    ensures TickAt(sys, s, c, t) ==> t.rate == s.pc.rate && !Turned(s.pc, s.done, t, c)
  {
    hide JobsOk, Single, Queued, Executing, Groups.Get, Groups.Set, OnSwitch, FlagsOk, Period;
    var h, i := s.done.Get(s.pc.rate), s.pc.i;
    assert h[..i + 1] == h[..i] + [h[i]];
    assert h[i] !in h[..i];
    assert !Before(s.pc.rate, s.pc.rate);
  }

  lemma TickMoves(sys: System, s: State, t: Task, c: nat)
    requires Control(sys, s) && TimeOk(s) && s.pc.Ticking? && c < |sys.conns|
    ensures if TickAt(sys, s, c, t)
      then Last(s, t, c) == s.pc.now - Period(t.rate) && Last(MainStep(sys, s), t, c) == s.pc.now
      else Last(MainStep(sys, s), t, c) == Last(s, t, c)
  {
    hide Control, MainStep, Prev, Period, Turned, TickAt, Due;
    PrevFacts(t.rate, s.pc.now);
    TickTurn(sys, s, t, c);
  }

  /** Steps inside a call that are not switch ticks. */
  lemma CallMoves(sys: System, s: State, t: Task, c: nat)
    requires Control(sys, s) && TimeOk(s) && (s.pc.Checking? || s.pc.Switching?)
    ensures Last(MainStep(sys, s), t, c) == Last(s, t, c)
  {
    hide JobsOk, LinksOk, Single, Queued, Executing, Groups.Get, Groups.Set, FlagsOk, Prev, Period, InGroup;
    MainControl(sys, s);
    var h := s.done.Get(s.pc.rate);
    assert h[..|h|] == h;
  }

  /** The end of a group's turn, for all its tasks at once. */
  lemma GroupMoves(sys: System, s: State, t: Task, c: nat)
    requires Control(sys, s) && TimeOk(s) && Complete(sys, s.pc, s.done) && sys.Has(t) && (s.pc.Entering? || s.pc.Dispatching?)
    ensures Last(MainStep(sys, s), t, c) == Last(s, t, c)
  {
    hide JobsOk, LinksOk, Single, Queued, Executing, Groups.Get, Groups.Set, FlagsOk, Prev;
    PrevFacts(t.rate, s.pc.now);
    if s.pc.Dispatching? && t.rate == s.pc.rate {
      assert s.done.Get(t.rate)[t.index] == t;
    }
  }

  /** Only the switch tick of t on c moves it, from one due cycle to the next. */
  lemma LastMoves(sys: System, s: State, a: Action, t: Task, c: nat)
    requires Control(sys, s) && TimeOk(s) && Complete(sys, s.pc, s.done) && !a.TimedOut? && sys.Has(t) && c < |sys.conns|
    ensures if a.Main? && TickAt(sys, s, c, t)
      then Last(s, t, c) == s.pc.now - Period(t.rate) && Last(Step(sys, s, a), t, c) == s.pc.now
      else Last(Step(sys, s, a), t, c) == Last(s, t, c)
  {
    hide Control, Groups.Get, Groups.Set, OnSwitch, Prev, Complete;
    if ByWorker(a) {
      WorkerFrame(sys, s, a);
    } else if a.Main? {
      match s.pc
      case Ticking(_, _, _, _) => TickMoves(sys, s, t, c);
      case Entering(_, _) => GroupMoves(sys, s, t, c);
      case Dispatching(_, _, _) => GroupMoves(sys, s, t, c);
      case Checking(_, _, _) => CallMoves(sys, s, t, c);
      case Switching(_, _, _) => CallMoves(sys, s, t, c);
      case _ =>
    }
  }

  // ---- the cycle stamps of instances ---------------------------------------------------------

  predicate JobTurned(pc: Pc, t: Task) {
    InCycle(pc) && (Before(t.rate, pc.rate) || (t.rate == pc.rate && pc.Dispatching?))
  }

  function JobLast(s: State, t: Task): int {
    Prev(t.rate, if InCycle(s.pc) && !JobTurned(s.pc, t) then s.pc.now else s.clock)
  }

  ghost predicate HasJob(s: State, j: Job) {
    j in s.queue || exists w :: 0 <= w < |s.workers| && s.workers[w].On? && s.workers[w].job == j
  }

  /** Every instance belongs to the latest due cycle of its task. */
  ghost predicate Stamped(s: State) { forall j :: HasJob(s, j) ==> j.cycle == JobLast(s, j.task) }

  /** While a group is being switched none of its tasks is busy. */
  lemma AllHeld(sys: System, s: State, t: Task)
    requires Control(sys, s) && Complete(sys, s.pc, s.done) && sys.Has(t) && (s.pc.Switching? || s.pc.Ticking?) && t.rate == s.pc.rate
    ensures t !in Busy(s)
  {
    hide JobsOk, LinksOk, Single, Queued, Executing, Groups.Get, InGroup;
    assert s.done.Get(t.rate)[t.index] == t;
    assert t in Elems(Held(s.pc, s.done));
  }

  lemma SwitchedIdle(sys: System, s: State, t: Task)
    requires Control(sys, s) && Complete(sys, s.pc, s.done) && sys.Has(t) && t in Busy(s)
    ensures (s.pc.Switching? || s.pc.Ticking?) ==> t.rate != s.pc.rate
  {
    hide Control, Complete, Busy;
    if (s.pc.Switching? || s.pc.Ticking?) && t.rate == s.pc.rate { AllHeld(sys, s, t); }
  }

  lemma MainJobLast(sys: System, s: State, t: Task)
    requires Control(sys, s) && TimeOk(s) && Complete(sys, s.pc, s.done) && sys.Has(t) && t in Busy(s)
    ensures JobLast(MainStep(sys, s), t) == JobLast(s, t)
  {
    hide Control, Busy, Groups.Get, MainStep, Prev, Complete;
    if s.pc.Entering? || s.pc.Dispatching? {
      TurnJobLast(sys, s, t);
    } else {
      SwitchedIdle(sys, s, t);
      SamePlace(sys, s);
    }
  }

  lemma TurnJobLast(sys: System, s: State, t: Task)
    requires TimeOk(s) && (s.pc.Entering? || s.pc.Dispatching?)
    ensures JobLast(MainStep(sys, s), t) == JobLast(s, t)
  {
    hide Groups.Get, Groups.Set, Prev;
    PrevFacts(t.rate, s.pc.now);
  }

  lemma JobLastKept(sys: System, s: State, a: Action, t: Task)
    requires Control(sys, s) && TimeOk(s) && Complete(sys, s.pc, s.done) && !a.TimedOut? && sys.Has(t) && t in Busy(s)
    ensures JobLast(Step(sys, s, a), t) == JobLast(s, t)
  {
    hide Control, Queued, Executing, Groups.Get, Prev, Complete, MainStep;
    if ByWorker(a) {
      WorkerFrame(sys, s, a);
    } else if a.Main? {
      MainJobLast(sys, s, t);
    }
  }

  /** A busy task and a task of the same rate agree on their last turn. */
  lemma BusyLast(sys: System, s: State, t: Task, u: Task, c: nat)
    requires Control(sys, s) && Complete(sys, s.pc, s.done) && sys.Has(t) && t in Busy(s) && sys.Has(u) && u.rate == t.rate
    ensures Last(s, u, c) == JobLast(s, t)
  {
    hide Control, Queued, Executing, Groups.Get, Prev;
    SwitchedIdle(sys, s, t);
    if s.pc.Dispatching? && s.pc.rate == u.rate { assert s.done.Get(u.rate)[u.index] == u; }
  }

  lemma JobBusy(sys: System, s: State, j: Job)
    requires Control(sys, s) && HasJob(s, j)
    ensures sys.Has(j.task) && j.task in Busy(s)
  {
    hide LinksOk, PcOk, Single, FlagsOk;
    if j !in s.queue {
      var w :| 0 <= w < |s.workers| && s.workers[w].On? && s.workers[w].job == j;
      assert WorkerOk(sys, s.workers[w]);
    }
  }

  /** Inside an instance the worker keeps its job. */
  lemma InnerJobs(sys: System, s: State, a: Action)
    requires a.Fire? || a.Tick? || a.Deliver? || a.EndSend? || a.Pull?
    ensures var n := Step(sys, s, a);
      && n.queue == s.queue && |n.workers| == |s.workers|
      && forall w :: 0 <= w < |s.workers| ==> (n.workers[w].On? <==> s.workers[w].On?) && (n.workers[w].On? ==> n.workers[w].job == s.workers[w].job)
  {
  }

  lemma MainJobs(sys: System, s: State, j: Job)
    requires HasJob(MainStep(sys, s), j)
    ensures HasJob(s, j) || (s.pc.Dispatching? && j.cycle == s.pc.now && s.pc.i < |s.done.Get(s.pc.rate)| && j.task == s.done.Get(s.pc.rate)[s.pc.i])
  {
    hide Groups.Get, Groups.Set, OnSwitch, Due;
    assert MainStep(sys, s).workers == s.workers;
  }

  /** Instances come into being by dispatch, in the current cycle, and in no other way. */
  lemma JobOrigin(sys: System, s: State, a: Action, j: Job)
    requires HasJob(Step(sys, s, a), j)
    ensures HasJob(s, j) || (a.Main? && s.pc.Dispatching? && j.cycle == s.pc.now && s.pc.i < |s.done.Get(s.pc.rate)| && j.task == s.done.Get(s.pc.rate)[s.pc.i])
  {
    hide MainStep, Groups.Get, Groups.Set, OnSwitch, FireStep, TickStep, DeliverStep, EndSendStep, PullStep;
    var n := Step(sys, s, a);
    if a.Fire? || a.Tick? || a.Deliver? || a.EndSend? || a.Pull? { InnerJobs(sys, s, a); }
    if a.Main? {
      MainJobs(sys, s, j);
    } else if j !in n.queue {
      var w :| 0 <= w < |n.workers| && n.workers[w].On? && n.workers[w].job == j;
      if j !in s.queue { assert s.workers[w].On? && s.workers[w].job == j; }
    }
  }

  lemma StepStamped(sys: System, s: State, a: Action)
    requires Control(sys, s) && TimeOk(s) && Complete(sys, s.pc, s.done) && !a.TimedOut? && Stamped(s)
    ensures Stamped(Step(sys, s, a))
  {
    hide FlagsOk, JobsOk, LinksOk, Single, Groups.Get, HasJob, Complete, Busy, Queued, Executing, Prev, Before;
    var n := Step(sys, s, a);
    forall j | HasJob(n, j) ensures j.cycle == JobLast(n, j.task) {
      JobOrigin(sys, s, a, j);
      if HasJob(s, j) {
        JobBusy(sys, s, j);
        JobLastKept(sys, s, a, j.task);
      } else {
        PrevFacts(s.pc.rate, s.pc.now);
      }
    }
  }
}
