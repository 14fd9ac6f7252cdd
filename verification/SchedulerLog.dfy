/**
 * The order of switch ticks and dispatches over every run, which tasks get them, and how often
 * each task is dispatched.
 */
module SchedulerLog {
  import opened Scheduling
  import opened SchedulerControl
  import opened SchedulerEvents
  import opened SchedulerTiming

  // ---- how often a task is dispatched --------------------------------------------------------

  function Dispatches(log: seq<Entry>, t: Task): nat {
    if log == [] then 0
    else Dispatches(log[..|log| - 1], t) + (if log[|log| - 1].Dispatch? && log[|log| - 1].task == t then 1 else 0)
  }

  /** The places of the log at which t is dispatched. */
  ghost function DispatchedAt(log: seq<Entry>, t: Task): set<nat> {
    set i: nat | i < |log| && log[i].Dispatch? && log[i].task == t
  }

  lemma {:induction false} DispatchesCounted(log: seq<Entry>, t: Task)
    ensures Dispatches(log, t) == |DispatchedAt(log, t)|
  {
    if log != [] {
      var n, before := |log| - 1, log[..|log| - 1];
      DispatchesCounted(before, t);
      assert forall i: nat :: i < n ==> before[i] == log[i];
      assert DispatchedAt(log, t) == DispatchedAt(before, t) + if log[n].Dispatch? && log[n].task == t then {n} else {};
    }
  }

  ghost predicate DispatchAt(s: State, t: Task) {
    s.pc.Dispatching? && s.pc.i < |s.done.Get(s.pc.rate)| && s.done.Get(s.pc.rate)[s.pc.i] == t
  }

  lemma LogStep(sys: System, s: State, a: Action, t: Task)
    ensures Dispatches(Step(sys, s, a).log, t) == Dispatches(s.log, t) + (if a.Main? && DispatchAt(s, t) then 1 else 0)
  {
    hide MainStep, Dispatches, DispatchAt;
    if ByWorker(a) {
      WorkerFrame(sys, s, a);
    } else if a.Main? {
      MainLog(sys, s, t);
    }
  }

  lemma MainLog(sys: System, s: State, t: Task)
    ensures Dispatches(MainStep(sys, s).log, t) == Dispatches(s.log, t) + (if DispatchAt(s, t) then 1 else 0)
  {
    hide Groups.Get, Groups.Set, OnSwitch, Due, Dispatches;
    var n := MainStep(sys, s);
    if s.pc.Switching? || s.pc.Dispatching? {
      if n.log != s.log { DispatchesSnoc(s.log, n.log[|n.log| - 1], t); }
    }
  }

  lemma DispatchesSnoc(log: seq<Entry>, e: Entry, t: Task)
    ensures Dispatches(log + [e], t) == Dispatches(log, t) + (if e.Dispatch? && e.task == t then 1 else 0)
  {
    assert (log + [e])[..|log|] == log;
  }

  ghost predicate Dispatched(pc: Pc, done: Groups<seq<Task>>, t: Task) {
    InCycle(pc) && (Before(t.rate, pc.rate)
      || (t.rate == pc.rate && pc.Dispatching? && pc.i <= |done.Get(pc.rate)| && t in done.Get(pc.rate)[..pc.i]))
  }

  /** The cycle in which t was last dispatched, if it was dispatched whenever it was due. */
  ghost function DispatchLast(s: State, t: Task): int {
    Prev(t.rate, if InCycle(s.pc) && !Dispatched(s.pc, s.done, t) then s.pc.now else s.clock)
  }

  lemma DispatchMoves(sys: System, s: State, t: Task)
    requires Control(sys, s) && TimeOk(s) && Complete(sys, s.pc, s.done) && sys.Has(t) && s.pc.Dispatching?
    ensures DispatchLast(MainStep(sys, s), t) == DispatchLast(s, t) + (if DispatchAt(s, t) then Period(t.rate) else 0)
  {
    hide JobsOk, LinksOk, Single, FlagsOk, Groups.Get, Groups.Set, Prev;
    PrevFacts(t.rate, s.pc.now);
    var h, i := s.done.Get(s.pc.rate), s.pc.i;
    if i < |h| {
      assert h[..i + 1] == h[..i] + [h[i]];
      assert h[i] !in h[..i];
    } else if t.rate == s.pc.rate {
      assert h[..i] == h && h[t.index] == t;
    }
  }

  lemma MainDispatchLast(sys: System, s: State, t: Task)
    requires Control(sys, s) && TimeOk(s) && Complete(sys, s.pc, s.done) && sys.Has(t)
    ensures DispatchLast(MainStep(sys, s), t) == DispatchLast(s, t) + (if DispatchAt(s, t) then Period(t.rate) else 0)
  {
    hide Control, Complete, MainStep, Groups.Get, Prev;
    match s.pc
    case Dispatching(_, _, _) => DispatchMoves(sys, s, t);
    case Entering(_, _) => EnterDispatchLast(sys, s, t);
    case _ => OtherDispatchLast(sys, s, t);
  }

  lemma EnterDispatchLast(sys: System, s: State, t: Task)
    requires TimeOk(s) && s.pc.Entering?
    ensures DispatchLast(MainStep(sys, s), t) == DispatchLast(s, t)
  {
    hide Groups.Get, Groups.Set, Prev;
    PrevFacts(t.rate, s.pc.now);
  }

  lemma OtherDispatchLast(sys: System, s: State, t: Task)
    requires Control(sys, s) && TimeOk(s) && !s.pc.Dispatching? && !s.pc.Entering?
    ensures DispatchLast(MainStep(sys, s), t) == DispatchLast(s, t)
  {
    hide Control, Groups.Get, MainStep, Prev, Period;
    SamePlace(sys, s);
  }

  lemma DispatchLastStep(sys: System, s: State, a: Action, t: Task)
    requires Control(sys, s) && TimeOk(s) && Complete(sys, s.pc, s.done) && sys.Has(t) && !a.TimedOut?
    ensures DispatchLast(Step(sys, s, a), t) == DispatchLast(s, t) + (if a.Main? && DispatchAt(s, t) then Period(t.rate) else 0)
  {
    hide Control, Groups.Get, MainStep, Prev, Complete, DispatchAt;
    if ByWorker(a) {
      WorkerFrame(sys, s, a);
    } else if a.Main? {
      MainDispatchLast(sys, s, t);
    }
  }

  ghost predicate Steady(sys: System, s: State) {
    Control(sys, s) && TimeOk(s) && Complete(sys, s.pc, s.done)
  }

  lemma {:induction false} RunDispatches(sys: System, clock: int, threads: nat, acts: seq<Action>, t: Task)
    requires sys.Has(t) && Punctual(acts)
    ensures var s := Run(sys, Init(sys, clock, threads), acts);
      Steady(sys, s) && Dispatches(s.log, t) * Period(t.rate) == DispatchLast(s, t) - Prev(t.rate, clock)
  {
    hide Control, Complete, Step, Period, Prev, Dispatches;
    if acts == [] {
      InitControl(sys, clock, threads);
      InitComplete(sys, clock, threads);
      NoDispatches(t);
    } else {
      RunDispatches(sys, clock, threads, acts[..|acts| - 1], t);
      var s, a := Run(sys, Init(sys, clock, threads), acts[..|acts| - 1]), acts[|acts| - 1];
      StepControl(sys, s, a);
      StepTime(sys, s, a);
      StepComplete(sys, s, a);
      LogStep(sys, s, a, t);
      DispatchLastStep(sys, s, a, t);
    }
  }

  lemma NoDispatches(t: Task)
    ensures Dispatches([], t) == 0
  {
  }

  /** From clock 0 on, n calls of work() dispatch a task ceil(n / period) times. */
  lemma DispatchCount(sys: System, threads: nat, acts: seq<Action>, t: Task)
    requires sys.Has(t) && Punctual(acts)
    ensures var s := Run(sys, Init(sys, 0, threads), acts);
      s.pc.Idle? ==> |DispatchedAt(s.log, t)| == (s.clock + Period(t.rate) - 1) / Period(t.rate)
  {
    hide Control, Complete, Run, Init, Dispatches, DispatchedAt;
    RunDispatches(sys, 0, threads, acts, t);
    DispatchesCounted(Run(sys, Init(sys, 0, threads), acts).log, t);
  }

  // ---- the order of switch ticks and dispatches ----------------------------------------------

  /** A call of run_periodic_tasks that ran to its end. */
  datatype Done = Done(rate: Rate, cycle: int, tasks: seq<Task>)

  function Switches(ts: seq<Task>, cycle: int): seq<Entry> { seq(|ts|, i requires 0 <= i < |ts| => Switch(ts[i], cycle)) }

  function Sent(ts: seq<Task>, cycle: int): seq<Entry> { seq(|ts|, i requires 0 <= i < |ts| => Dispatch(ts[i], cycle)) }

  /** All its switch ticks come before its first dispatch. */
  function Block(d: Done): seq<Entry> { Switches(d.tasks, d.cycle) + Sent(d.tasks, d.cycle) }

  lemma BlockAt(d: Done)
    ensures |Block(d)| == 2 * |d.tasks|
    ensures forall i :: 0 <= i < |d.tasks| ==> Block(d)[i] == Switch(d.tasks[i], d.cycle)
    ensures forall i :: 0 <= i < |d.tasks| ==> Block(d)[|d.tasks| + i] == Dispatch(d.tasks[i], d.cycle)
  {
  }

  function Blocks(ds: seq<Done>): seq<Entry> {
    if ds == [] then [] else Blocks(ds[..|ds| - 1]) + Block(ds[|ds| - 1])
  }

  /** What the call under way has done so far. */
  function Partial(pc: Pc, done: Groups<seq<Task>>): seq<Entry> {
    match pc
    case Switching(now, r, i) => if i <= |done.Get(r)| then Switches(done.Get(r)[..i], now) else []
    case Ticking(now, r, i, _) => if i < |done.Get(r)| then Switches(done.Get(r)[..i + 1], now) else []
    case Dispatching(now, r, i) => if i <= |done.Get(r)| then Switches(done.Get(r), now) + Sent(done.Get(r)[..i], now) else []
    case _ => []
  }

  /** Calls follow each other by cycle, and within a cycle fast, medium, slow. */
  predicate Earlier(d: Done, cycle: int, r: Rate) { d.cycle < cycle || (d.cycle == cycle && Before(d.rate, r)) }

  ghost predicate Sequenced(sys: System, ds: seq<Done>) {
    && (forall i :: 0 <= i < |ds| ==> InGroup(sys, ds[i].tasks, ds[i].rate) && Due(ds[i].rate, ds[i].cycle))
    && (forall i, j :: 0 <= i < j < |ds| ==> Earlier(ds[i], ds[j].cycle, ds[j].rate))
  }

  /** Where the main thread stands is later than all calls that have ended. */
  ghost predicate Ahead(ds: seq<Done>, s: State) {
    forall i :: 0 <= i < |ds| ==>
      if InCycle(s.pc) then Earlier(ds[i], s.pc.now, s.pc.rate) else ds[i].cycle < s.clock
  }

  ghost predicate Logged(sys: System, s: State, ds: seq<Done>) {
    && s.log == Blocks(ds) + Partial(s.pc, s.done) && Sequenced(sys, ds) && Ahead(ds, s)
    && (InCycle(s.pc) ==> s.clock == s.pc.now + 1) && (InCall(s.pc) ==> Due(s.pc.rate, s.pc.now))
  }

  /** The calls ended after a step: one more when the last task has been dispatched. */
  ghost function EndedBy(s: State, a: Action, ds: seq<Done>): seq<Done> {
    if a.Main? && s.pc.Dispatching? && s.pc.i >= |s.done.Get(s.pc.rate)|
    then ds + [Done(s.pc.rate, s.pc.now, s.done.Get(s.pc.rate))] else ds
  }

  lemma BlocksSnoc(ds: seq<Done>, d: Done)
    ensures Blocks(ds + [d]) == Blocks(ds) + Block(d)
  {
    assert (ds + [d])[..|ds|] == ds;
  }

  lemma SwitchGrows(sys: System, s: State, base: seq<Entry>)
    requires Control(sys, s) && s.log == base + Partial(s.pc, s.done) && s.pc.Switching?
    ensures var n := MainStep(sys, s); n.log == base + Partial(n.pc, n.done)
  {
    hide JobsOk, LinksOk, Single, FlagsOk, Groups.Get, Groups.Set, InGroup, Elems;
    MainControl(sys, s);
    var h, i := s.done.Get(s.pc.rate), s.pc.i;
    if i < |h| {
      assert Switches(h[..i + 1], s.pc.now) == Switches(h[..i], s.pc.now) + [Switch(h[i], s.pc.now)];
    } else {
      assert h[..i] == h && Sent(h[..0], s.pc.now) == [];
    }
  }

  lemma DispatchGrows(sys: System, s: State, base: seq<Entry>)
    requires Control(sys, s) && s.log == base + Partial(s.pc, s.done) && s.pc.Dispatching? && s.pc.i < |s.done.Get(s.pc.rate)|
    ensures var n := MainStep(sys, s); n.log == base + Partial(n.pc, n.done)
  {
    hide JobsOk, LinksOk, Single, FlagsOk, Groups.Get, Groups.Set, InGroup;
    var h, i := s.done.Get(s.pc.rate), s.pc.i;
    assert Sent(h[..i + 1], s.pc.now) == Sent(h[..i], s.pc.now) + [Dispatch(h[i], s.pc.now)];
  }

  /** The text of the log when a call ends. */
  lemma EndText(s: State, ds: seq<Done>)
    requires s.pc.Dispatching? && s.pc.i == |s.done.Get(s.pc.rate)| && s.log == Blocks(ds) + Partial(s.pc, s.done)
    ensures s.log == Blocks(EndedBy(s, Main, ds))
  {
    hide Blocks, Groups.Get, Switches, Sent;
    var h := s.done.Get(s.pc.rate);
    BlocksSnoc(ds, Done(s.pc.rate, s.pc.now, h));
    assert h[..s.pc.i] == h;
  }

  lemma EndSequenced(sys: System, ds: seq<Done>, d: Done)
    requires Sequenced(sys, ds) && InGroup(sys, d.tasks, d.rate) && Due(d.rate, d.cycle)
    requires forall i :: 0 <= i < |ds| ==> Earlier(ds[i], d.cycle, d.rate)
    ensures Sequenced(sys, ds + [d])
  {
    hide InGroup, Due, Earlier;
  }

  /** After its turn the group lies behind the main thread. */
  lemma EndAhead(ds: seq<Done>, d: Done, n: State)
    requires n.pc == AfterGroup(d.cycle, d.rate) && n.clock == d.cycle + 1
    requires forall i :: 0 <= i < |ds| ==> Earlier(ds[i], d.cycle, d.rate)
    ensures Ahead(ds + [d], n) && Ahead(ds, n)
  {
  }

  lemma DispatchEnds(sys: System, s: State, ds: seq<Done>)
    requires Control(sys, s) && Logged(sys, s, ds) && s.pc.Dispatching? && s.pc.i >= |s.done.Get(s.pc.rate)|
    ensures Logged(sys, MainStep(sys, s), EndedBy(s, Main, ds))
  {
    hide JobsOk, LinksOk, Single, FlagsOk, Groups.Get, Groups.Set, InGroup, Due, Blocks, Sequenced, Earlier, Switches, Sent, AfterGroup;
    var d := Done(s.pc.rate, s.pc.now, s.done.Get(s.pc.rate));
    EndText(s, ds);
    EndSequenced(sys, ds, d);
    EndAhead(ds, d, MainStep(sys, s));
    EndsQuietly(s.pc.now, s.pc.rate, MainStep(sys, s).done);
  }

  lemma EndsQuietly(now: int, r: Rate, done: Groups<seq<Task>>)
    ensures var pc := AfterGroup(now, r); Partial(pc, done) == [] && !InCall(pc) && (InCycle(pc) ==> pc.now == now)
  {
  }

  /** Steps that leave no trace in the log. */
  lemma QuietLogged(sys: System, s: State, ds: seq<Done>)
    requires Control(sys, s) && Logged(sys, s, ds) && !s.pc.Switching? && !s.pc.Dispatching?
    ensures Logged(sys, MainStep(sys, s), ds)
  {
    hide Control, Groups.Get, Groups.Set, MainStep, Due, Sequenced, Blocks, Partial;
    match s.pc
    case Entering(_, _) => EnterLogged(sys, s, ds);
    case Checking(_, _, _) => CheckLogged(sys, s, ds);
    case Rechecking(_, _, _) => CheckLogged(sys, s, ds);
    case Ticking(_, _, _, _) => TickLogged(sys, s, ds);
    case _ => WaitLogged(sys, s, ds);
  }

  lemma EnterLogged(sys: System, s: State, ds: seq<Done>)
    requires Logged(sys, s, ds) && s.pc.Entering?
    ensures Logged(sys, MainStep(sys, s), ds)
  {
    hide Groups.Get, Groups.Set, Due, Sequenced, Blocks, AfterGroup;
    EndAhead(ds, Done(s.pc.rate, s.pc.now, []), s.(pc := AfterGroup(s.pc.now, s.pc.rate)));
    EndsQuietly(s.pc.now, s.pc.rate, s.done);
  }

  lemma CheckLogged(sys: System, s: State, ds: seq<Done>)
    requires Logged(sys, s, ds) && (s.pc.Checking? || s.pc.Rechecking?)
    ensures Logged(sys, MainStep(sys, s), ds)
  {
    hide Groups.Get, Groups.Set, Due, Sequenced, Blocks, Earlier, Switches, Sent;
    NoSwitches(s.done.Get(s.pc.rate), s.pc.now);
  }

  lemma TickLogged(sys: System, s: State, ds: seq<Done>)
    requires Control(sys, s) && Logged(sys, s, ds) && s.pc.Ticking?
    ensures Logged(sys, MainStep(sys, s), ds)
  {
    hide Groups.Get, Groups.Set, Due, Sequenced, Blocks, Earlier, Switches, Sent, OnSwitch, JobsOk, Single, FlagsOk, InGroup;
  }

  lemma WaitLogged(sys: System, s: State, ds: seq<Done>)
    requires Logged(sys, s, ds) && (s.pc.Waiting? || s.pc.Asking? || s.pc.Idle? || s.pc.Waited? || s.pc.Failed?)
    ensures Logged(sys, MainStep(sys, s), ds)
  {
    hide Groups.Get, Groups.Set, Due, Sequenced, Blocks, Earlier;
  }

  lemma MainLogged(sys: System, s: State, ds: seq<Done>)
    requires Control(sys, s) && Logged(sys, s, ds)
    ensures Logged(sys, MainStep(sys, s), EndedBy(s, Main, ds))
  {
    hide Groups.Get, Groups.Set, Due, Sequenced, Blocks, Control, Partial;
    if s.pc.Switching? {
      SwitchGrows(sys, s, Blocks(ds));
    } else if s.pc.Dispatching? {
      if s.pc.i < |s.done.Get(s.pc.rate)| { DispatchGrows(sys, s, Blocks(ds)); } else { DispatchEnds(sys, s, ds); }
    } else {
      QuietLogged(sys, s, ds);
    }
  }

  lemma StepLogged(sys: System, s: State, a: Action, ds: seq<Done>)
    requires Control(sys, s) && Logged(sys, s, ds)
    ensures Logged(sys, Step(sys, s, a), EndedBy(s, a, ds))
  {
    hide Groups.Get, MainStep, Due, Sequenced, Blocks, Control;
    if ByWorker(a) {
      WorkerFrame(sys, s, a);
    } else if a.Main? {
      MainLogged(sys, s, ds);
    }
  }

  /** The calls of run_periodic_tasks that have run to their end, each with the tasks it found done. */
  ghost function Ended(sys: System, s: State, acts: seq<Action>): seq<Done> {
    if acts == [] then []
    else EndedBy(Run(sys, s, acts[..|acts| - 1]), acts[|acts| - 1], Ended(sys, s, acts[..|acts| - 1]))
  }

  /**
   * Over every run the switch ticks and dispatches form complete blocks, one for each call of
   * run_periodic_tasks that has ended, in their order, and the block of the call under way: each
   * task found done gets one switch tick and then one dispatch, all switch ticks come before any
   * dispatch, an aborted call leaves no trace, and no group has two calls in one cycle.
   */
  lemma {:induction false} LogOfBlocks(sys: System, clock: int, threads: nat, acts: seq<Action>)
    ensures Logged(sys, Run(sys, Init(sys, clock, threads), acts), Ended(sys, Init(sys, clock, threads), acts))
  {
    hide Control, Step;
    if acts != [] {
      var before := acts[..|acts| - 1];
      LogOfBlocks(sys, clock, threads, before);
      RunControl(sys, clock, threads, before);
      StepLogged(sys, Run(sys, Init(sys, clock, threads), before), acts[|acts| - 1], Ended(sys, Init(sys, clock, threads), before));
    }
  }

  // ---- every done task is served -------------------------------------------------------------

  /** ts holds every task of group r, up to index hi, whose flag is not set. */
  ghost predicate Covers(flags: set<Task>, r: Rate, hi: nat, ts: seq<Task>) {
    forall j: nat :: j < hi && Task(r, j) !in flags ==> Task(r, j) in ts
  }

  /** No task of group r has got its flag set. */
  ghost predicate NoneSet(before: set<Task>, now: set<Task>, r: Rate) {
    forall t :: t in now && t.rate == r ==> t in before
  }

  /** The call for the group entered in state e is under way in state s. */
  ghost predicate UnderWay(sys: System, e: State, s: State, now: int, r: Rate) {
    var ts := s.done.Get(r);
    match s.pc
    case Entering(x, q) => x == now && q == r && ts == [] && s.log == e.log && NoneSet(e.flags, s.flags, r)
    case Checking(x, q, i) => x == now && q == r && s.log == e.log && NoneSet(e.flags, s.flags, r) && Covers(e.flags, r, i, ts)
    case Asking(x, q, i) => x == now && q == r && s.log == e.log && NoneSet(e.flags, s.flags, r) && Covers(e.flags, r, i, ts) && Task(r, i) in e.flags
    case Rechecking(x, q, i) => x == now && q == r && s.log == e.log && NoneSet(e.flags, s.flags, r) && Covers(e.flags, r, i, ts) && Task(r, i) in e.flags
    case Switching(x, q, _) => x == now && q == r && s.log == e.log + Partial(s.pc, s.done) && Covers(e.flags, r, sys.sizes.Get(r), ts)
    case Ticking(x, q, _, _) => x == now && q == r && s.log == e.log + Partial(s.pc, s.done) && Covers(e.flags, r, sys.sizes.Get(r), ts)
    case Dispatching(x, q, _) => x == now && q == r && s.log == e.log + Partial(s.pc, s.done) && Covers(e.flags, r, sys.sizes.Get(r), ts)
    case _ => false
  }

  /** The call has ended, and every task that was done when it was entered has been served. */
  ghost predicate Served(sys: System, e: State, s: State, now: int, r: Rate, ts: seq<Task>) {
    InGroup(sys, ts, r) && Covers(e.flags, r, sys.sizes.Get(r), ts) && e.log + Block(Done(r, now, ts)) <= s.log
  }

  /** The step with which the handler stops the call. */
  ghost predicate Stops(s: State, a: Action, now: int, r: Rate) {
    a == TimedOut(false) && s.pc.Asking? && s.pc.now == now && s.pc.rate == r
  }

  lemma LogGrows(sys: System, s: State, a: Action)
    ensures s.log <= Step(sys, s, a).log
  {
    hide Groups.Get, Groups.Set, OnSwitch;
    if ByWorker(a) { WorkerFrame(sys, s, a); }
  }

  lemma EnterUnderWay(sys: System, e: State, s: State, now: int, r: Rate)
    requires UnderWay(sys, e, s, now, r) && s.pc.Entering? && Due(r, now)
    ensures UnderWay(sys, e, MainStep(sys, s), now, r)
  {
    hide Groups.Get, Groups.Set, Due;
  }

  lemma CheckUnderWay(sys: System, e: State, s: State, now: int, r: Rate)
    requires Control(sys, s) && UnderWay(sys, e, s, now, r) && (s.pc.Checking? || s.pc.Rechecking?)
    ensures UnderWay(sys, e, MainStep(sys, s), now, r)
  {
    hide Groups.Get, Groups.Set, JobsOk, LinksOk, Single, FlagsOk, InGroup, Switches;
    var n, ts, i := MainStep(sys, s), s.done.Get(r), s.pc.i;
    assert n.done.Get(r) == ts || n.done.Get(r) == ts + [Task(r, i)];
    if s.pc.Checking? && i >= sys.sizes.Get(r) { NoSwitches(ts, now); }
  }

  lemma NoSwitches(ts: seq<Task>, now: int)
    ensures Switches(ts[..0], now) == []
  {
  }

  lemma ServeUnderWay(sys: System, e: State, s: State, now: int, r: Rate)
    requires Control(sys, s) && UnderWay(sys, e, s, now, r) && (s.pc.Switching? || s.pc.Ticking? || (s.pc.Dispatching? && s.pc.i < |s.done.Get(r)|))
    ensures UnderWay(sys, e, MainStep(sys, s), now, r)
  {
    hide Groups.Get, Groups.Set, JobsOk, Single, FlagsOk, Elems, InGroup, Covers, Switches, Sent, OnSwitch;
    MainControl(sys, s);
    match s.pc
    case Switching(_, _, _) => SwitchGrows(sys, s, e.log);
    case Dispatching(_, _, _) => DispatchGrows(sys, s, e.log);
    case _ =>
  }

  lemma EndServes(sys: System, e: State, s: State, now: int, r: Rate)
    requires Control(sys, s) && UnderWay(sys, e, s, now, r) && s.pc.Dispatching? && s.pc.i >= |s.done.Get(r)|
    ensures Served(sys, e, MainStep(sys, s), now, r, s.done.Get(r))
  {
    hide Groups.Get, Groups.Set, JobsOk, LinksOk, Single, FlagsOk, InGroup, Covers, Switches, Sent;
    var ts := s.done.Get(r);
    assert ts[..s.pc.i] == ts;
  }

  lemma OtherUnderWay(sys: System, e: State, s: State, a: Action, now: int, r: Rate)
    requires Control(sys, s) && UnderWay(sys, e, s, now, r) && !a.Main? && !Stops(s, a, now, r)
    ensures UnderWay(sys, e, Step(sys, s, a), now, r)
  {
    hide Groups.Get, MainStep, Covers, Partial, Control;
    if ByWorker(a) {
      WorkerFrame(sys, s, a);
      WorkerFlags(sys, s, a);
    }
  }

  /**
   * A group that is due is entered in state e.  Whatever happens then, and whatever the handler
   * answers: the call is still under way, or it has been stopped by the handler, or it has ended
   * and the ticks behind those of e begin with a block of one switch tick and one dispatch for
   * each of its tasks, among them every task of the group that was done on entry.
   */
  lemma {:induction false} DoneTasksServed(sys: System, e: State, acts: seq<Action>) returns (ts: seq<Task>, k: nat)
    requires Control(sys, e) && e.pc.Entering? && Due(e.pc.rate, e.pc.now) && e.done.Get(e.pc.rate) == []
    ensures var s, now, r := Run(sys, e, acts), e.pc.now, e.pc.rate;
      && Control(sys, s)
      && (UnderWay(sys, e, s, now, r) || Served(sys, e, s, now, r, ts) || (k < |acts| && Stops(Run(sys, e, acts[..k]), acts[k], now, r)))
  {
    hide Control, Step, UnderWay, Served, Due, Groups.Get;
    ts, k := [], 0;
    var now, r := e.pc.now, e.pc.rate;
    if acts == [] {
      Entered(sys, e);
    } else {
      var before, a := acts[..|acts| - 1], acts[|acts| - 1];
      ts, k := DoneTasksServed(sys, e, before);
      var s := Run(sys, e, before);
      StepControl(sys, s, a);
      if UnderWay(sys, e, s, now, r) {
        var us := NextUnderWay(sys, e, s, a, now, r);
        if Stops(s, a, now, r) { k := |before|; } else { ts := us; }
      } else if Served(sys, e, s, now, r, ts) {
        StillServed(sys, e, s, a, now, r, ts);
      } else {
        assert before[..k] == acts[..k];
      }
    }
  }

  lemma Entered(sys: System, e: State)
    requires e.pc.Entering? && e.done.Get(e.pc.rate) == []
    ensures UnderWay(sys, e, e, e.pc.now, e.pc.rate)
  {
  }

  lemma StillServed(sys: System, e: State, s: State, a: Action, now: int, r: Rate, ts: seq<Task>)
    requires Served(sys, e, s, now, r, ts)
    ensures Served(sys, e, Step(sys, s, a), now, r, ts)
  {
    hide Step, Block, InGroup, Covers;
    LogGrows(sys, s, a);
  }

  lemma NextUnderWay(sys: System, e: State, s: State, a: Action, now: int, r: Rate) returns (ts: seq<Task>)
    requires Control(sys, s) && UnderWay(sys, e, s, now, r) && Due(r, now)
    ensures UnderWay(sys, e, Step(sys, s, a), now, r) || Served(sys, e, Step(sys, s, a), now, r, ts) || Stops(s, a, now, r)
  {
    hide Control, MainStep, Served, Due, Groups.Get, Covers, Partial;
    ts := s.done.Get(r);
    if a.Main? {
      match s.pc
      case Entering(_, _) => EnterUnderWay(sys, e, s, now, r);
      case Checking(_, _, _) => CheckUnderWay(sys, e, s, now, r);
      case Rechecking(_, _, _) => CheckUnderWay(sys, e, s, now, r);
      case Asking(_, _, _) => Waits(sys, s);
      case Switching(_, _, _) => ServeUnderWay(sys, e, s, now, r);
      case Ticking(_, _, _, _) => ServeUnderWay(sys, e, s, now, r);
      case Dispatching(_, _, i) => if i < |ts| { ServeUnderWay(sys, e, s, now, r); } else { EndServes(sys, e, s, now, r); }
      case _ =>
    } else if !Stops(s, a, now, r) {
      OtherUnderWay(sys, e, s, a, now, r);
    }
  }

  /** While the handler is asked the main thread waits for its answer. */
  lemma Waits(sys: System, s: State)
    requires s.pc.Asking?
    ensures MainStep(sys, s) == s
  {
  }
}
