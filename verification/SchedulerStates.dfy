/**
 * Cross-region state connections over every run of the scheduler: a sink sees one value during
 * each of its work cycles, and never an older one than before.
 */
module SchedulerStates {
  import opened Scheduling
  import opened SchedulerControl
  import opened SchedulerEvents
  import opened SchedulerTiming
  import opened SchedulerLog

  // ---- sample numbers ------------------------------------------------------------------------

  ghost predicate Ordered(c: Conn, l: Link) {
    && l.StateLink? && l.latch.intern.number == l.taken && l.latch.extern.number <= l.taken
    && (!c.SameRate() ==> l.latch.extern.number <= l.latch.middle.number <= l.latch.intern.number)
  }

  /** No buffer goes back to an older sample. */
  ghost predicate NotOlder(l: Link, m: Link) {
    && l.StateLink? && m.StateLink? && l.latch.intern.number <= m.latch.intern.number
    && l.latch.middle.number <= m.latch.middle.number && l.latch.extern.number <= m.latch.extern.number
  }

  ghost predicate StateOk(c: Conn, l: Link) { Ordered(c, l) && (c.SameRate() ==> l.latch.middle.number == 0) }

  lemma MainLink(sys: System, s: State, c: nat)
    requires c < |sys.conns| && c < |s.links|
    ensures |MainStep(sys, s).links| == |s.links|
    ensures MainStep(sys, s).links[c] == s.links[c]
      || (s.pc.Ticking? && TickAt(sys, s, c, s.done.Get(s.pc.rate)[s.pc.i])
          && MainStep(sys, s).links[c] == OnSwitch(sys.conns[c], s.links[c], s.done.Get(s.pc.rate)[s.pc.i]))
  {
    hide Groups.Get, Groups.Set, OnSwitch, Due;
  }

  lemma StepOrdered(sys: System, s: State, a: Action, c: nat)
    requires LinksOk(sys, s.links) && c < |sys.conns| && StateOk(sys.conns[c], s.links[c])
    ensures c < |Step(sys, s, a).links| && StateOk(sys.conns[c], Step(sys, s, a).links[c])
    ensures NotOlder(s.links[c], Step(sys, s, a).links[c])
  {
    hide MainStep, TickAt, Groups.Get;
    if a.Main? { MainLink(sys, s, c); }
  }

  // ---- cycles keep apart ---------------------------------------------------------------------

  /** All instances of t so far belong to earlier cycles. */
  ghost function Horizon(s: State, t: Task): int {
    if InCycle(s.pc) && !Dispatched(s.pc, s.done, t) then s.pc.now else s.clock
  }

  ghost predicate ClockOk(s: State) { InCycle(s.pc) ==> s.clock == s.pc.now + 1 }

  lemma MainHorizon(sys: System, s: State, t: Task)
    requires Control(sys, s) && ClockOk(s)
    ensures ClockOk(MainStep(sys, s)) && Horizon(s, t) <= Horizon(MainStep(sys, s), t)
    ensures DispatchAt(s, t) ==> Horizon(s, t) == s.pc.now && Horizon(MainStep(sys, s), t) == s.pc.now + 1
  {
    hide JobsOk, LinksOk, Single, FlagsOk, Groups.Get, Groups.Set, OnSwitch, Due;
    if s.pc.Dispatching? && s.pc.i < |s.done.Get(s.pc.rate)| {
      var h := s.done.Get(s.pc.rate);
      assert h[..s.pc.i + 1] == h[..s.pc.i] + [h[s.pc.i]];
      assert h[s.pc.i] !in h[..s.pc.i];
    }
  }

  lemma StepHorizon(sys: System, s: State, a: Action, t: Task)
    requires Control(sys, s) && ClockOk(s)
    ensures ClockOk(Step(sys, s, a)) && Horizon(s, t) <= Horizon(Step(sys, s, a), t)
  {
    hide Control, MainStep, Groups.Get;
    if ByWorker(a) {
      WorkerFrame(sys, s, a);
    } else if a.Main? {
      MainHorizon(sys, s, t);
    }
  }

  ghost predicate JobsBelow(s: State) { forall j :: HasJob(s, j) ==> j.cycle < Horizon(s, j.task) }

  lemma StepJobsBelow(sys: System, s: State, a: Action)
    requires Control(sys, s) && ClockOk(s) && JobsBelow(s)
    ensures JobsBelow(Step(sys, s, a))
  {
    hide Control, HasJob, Horizon, Groups.Get, MainStep, TakeStep, FireStep, TickStep, DeliverStep, EndSendStep, PullStep, FinishStep;
    var n := Step(sys, s, a);
    forall j | HasJob(n, j) ensures j.cycle < Horizon(n, j.task) {
      JobOrigin(sys, s, a, j);
      if HasJob(s, j) {
        StepHorizon(sys, s, a, j.task);
      } else {
        MainHorizon(sys, s, j.task);
      }
    }
  }

  // ---- pulls ---------------------------------------------------------------------------------

  /** Pulls come in the order of their cycles, and those of one cycle saw the same sample. */
  ghost predicate Consistent(ps: seq<Pulled>) {
    forall i, j :: 0 <= i < j < |ps| ==> ps[i].cycle <= ps[j].cycle && (ps[i].cycle == ps[j].cycle ==> ps[i].sample == ps[j].sample)
  }

  ghost predicate AllBelow(ps: seq<Pulled>, cycle: int) { forall i :: 0 <= i < |ps| ==> ps[i].cycle < cycle }

  /** While an instance of the sink runs, what it has pulled is what extern holds. */
  ghost predicate Shows(l: Link, cycle: int)
    requires l.StateLink?
  {
    forall i :: 0 <= i < |l.pulls| ==> l.pulls[i].cycle <= cycle && (l.pulls[i].cycle == cycle ==> l.pulls[i].sample == l.latch.extern)
  }

  ghost predicate PullsOk(sys: System, s: State, c: nat) {
    && c < |sys.conns| && c < |s.links| && s.links[c].StateLink? && Consistent(s.links[c].pulls)
    && AllBelow(s.links[c].pulls, Horizon(s, sys.conns[c].active))
    && (forall j :: j in s.queue && j.task == sys.conns[c].active ==> AllBelow(s.links[c].pulls, j.cycle))
    && (forall w :: 0 <= w < |s.workers| && s.workers[w].On? && s.workers[w].job.task == sys.conns[c].active ==>
          Shows(s.links[c], s.workers[w].job.cycle))
  }

  /** A sink whose switch tick is due has no instance that could be pulling. */
  lemma TickedIdle(sys: System, s: State, c: nat, t: Task)
    requires Control(sys, s) && TickAt(sys, s, c, t)
    ensures forall w :: 0 <= w < |s.workers| && s.workers[w].On? ==> s.workers[w].job.task != t
  {
    hide JobsOk, LinksOk, Single, Groups.Get;
    assert t in Elems(Held(s.pc, s.done));
  }

  lemma MainQueues(sys: System, s: State)
    ensures MainStep(sys, s).workers == s.workers
    ensures forall j :: j in MainStep(sys, s).queue && j !in s.queue ==> DispatchAt(s, j.task) && j.cycle == s.pc.now
  {
    hide Groups.Get, Groups.Set, OnSwitch, Due;
  }

  lemma MainPulls(sys: System, s: State, c: nat)
    requires Control(sys, s) && ClockOk(s) && PullsOk(sys, s, c)
    ensures PullsOk(sys, MainStep(sys, s), c)
  {
    hide Control, MainStep, Groups.Get, Groups.Set, Horizon, Consistent, OnSwitch;
    var n, t := MainStep(sys, s), sys.conns[c].active;
    MainHorizon(sys, s, t);
    MainQueues(sys, s);
    MainLink(sys, s, c);
    if n.links[c] != s.links[c] {
      SwitchKeepsPulls(sys.conns[c], s.links[c], s.done.Get(s.pc.rate)[s.pc.i]);
      if TickAt(sys, s, c, t) { TickedIdle(sys, s, c, t); }
    }
  }

  lemma SwitchKeepsPulls(c: Conn, l: Link, t: Task)
    requires l.StateLink?
    ensures OnSwitch(c, l, t).StateLink? && OnSwitch(c, l, t).pulls == l.pulls
    ensures t != c.active ==> OnSwitch(c, l, t).latch.extern == l.latch.extern
  {
  }

  lemma PullPulls(sys: System, s: State, w: nat, e: nat, c: nat)
    requires Control(sys, s) && JobsBelow(s) && PullsOk(sys, s, c)
    ensures PullsOk(sys, PullStep(sys, s, w, e), c)
  {
    hide PcOk, FlagsOk, LinksOk, JobsOk, Dispatched, InCycle;
    var n := PullStep(sys, s, w, e);
    if n.links[c] != s.links[c] {
      var t := sys.conns[c].active;
      assert HasJob(s, s.workers[w].job);
      assert t in Executing(s.workers);
      forall j | j in s.queue ensures j.task != t {
        assert j.task in Queued(s.queue);
      }
    }
  }

  lemma TakePulls(sys: System, s: State, w: nat, c: nat)
    requires PullsOk(sys, s, c)
    ensures PullsOk(sys, TakeStep(sys, s, w), c)
  {
    hide Dispatched, InCycle, Consistent;
    var n := TakeStep(sys, s, w);
    if n != s { assert s.queue[0] in s.queue; }
  }

  /** The other actions of workers touch neither pulls nor extern, and keep the jobs. */
  lemma OtherPulls(sys: System, s: State, a: Action, c: nat)
    requires LinksOk(sys, s.links) && PullsOk(sys, s, c) && (a.Fire? || a.Tick? || a.Deliver? || a.EndSend? || a.Finish?)
    ensures PullsOk(sys, Step(sys, s, a), c)
  {
    hide Dispatched, InCycle, Consistent;
    var n := Step(sys, s, a);
    WorkerFrame(sys, s, a);
    if !a.Finish? { InnerJobs(sys, s, a); }
    assert n.links[c].StateLink? && n.links[c].pulls == s.links[c].pulls && n.links[c].latch.extern == s.links[c].latch.extern;
  }

  lemma StepPulls(sys: System, s: State, a: Action, c: nat)
    requires Control(sys, s) && ClockOk(s) && JobsBelow(s) && PullsOk(sys, s, c)
    ensures PullsOk(sys, Step(sys, s, a), c)
  {
    hide PcOk, FlagsOk, JobsOk, Single, MainStep, FireStep, TickStep, DeliverStep, EndSendStep, FinishStep, TakeStep, PullStep, Consistent, Dispatched;
    match a
    case Main => MainPulls(sys, s, c);
    case Take(w) => TakePulls(sys, s, w, c);
    case Pull(w, e) => PullPulls(sys, s, w, e, c);
    case Fire(_, _, _) => OtherPulls(sys, s, a, c);
    case Tick(_, _, _) => OtherPulls(sys, s, a, c);
    case Deliver(_) => OtherPulls(sys, s, a, c);
    case EndSend(_) => OtherPulls(sys, s, a, c);
    case Finish(_) => OtherPulls(sys, s, a, c);
    case _ => StepHorizon(sys, s, a, sys.conns[c].active);
  }

  // ---- the theorem ---------------------------------------------------------------------------

  ghost predicate StatesOk(sys: System, s: State, c: nat) {
    Control(sys, s) && ClockOk(s) && JobsBelow(s) && PullsOk(sys, s, c) && StateOk(sys.conns[c], s.links[c])
  }

  lemma InitStates(sys: System, clock: int, threads: nat, c: nat)
    requires c < |sys.conns| && sys.conns[c].kind == States
    ensures StatesOk(sys, Init(sys, clock, threads), c)
  {
    hide Control;
    InitControl(sys, clock, threads);
  }

  lemma StepStates(sys: System, s: State, a: Action, c: nat)
    requires StatesOk(sys, s, c)
    ensures StatesOk(sys, Step(sys, s, a), c) && NotOlder(s.links[c], Step(sys, s, a).links[c])
  {
    hide PcOk, FlagsOk, JobsOk, Single, Step, JobsBelow, PullsOk, StateOk, ClockOk, NotOlder;
    assert c < |sys.conns| && c < |s.links| by { HasLink(sys, s, c); }
    StepControl(sys, s, a);
    StepHorizon(sys, s, a, sys.conns[c].active);
    StepJobsBelow(sys, s, a);
    StepPulls(sys, s, a, c);
    StepOrdered(sys, s, a, c);
  }

  lemma HasLink(sys: System, s: State, c: nat)
    requires PullsOk(sys, s, c)
    ensures c < |sys.conns| && c < |s.links|
  {
  }

  /**
   * In every reachable state, whatever the timeout handler answers: all pulls of the sink during
   * one of its cycles returned the same sample, extern is not newer than middle and middle not
   * newer than intern (for equal rates extern not newer than intern).
   */
  lemma {:induction false} OneValuePerCycle(sys: System, clock: int, threads: nat, acts: seq<Action>, c: nat)
    requires c < |sys.conns| && sys.conns[c].kind == States
    ensures var s := Run(sys, Init(sys, clock, threads), acts);
      && StatesOk(sys, s, c)
      && var k, l, ps := sys.conns[c], s.links[c].latch, s.links[c].pulls;
         && (forall i, j :: 0 <= i < j < |ps| && ps[i].cycle == ps[j].cycle ==> ps[i].sample == ps[j].sample)
         && (forall i, j :: 0 <= i < j < |ps| ==> ps[i].cycle <= ps[j].cycle)
         && (if k.SameRate() then l.extern.number <= l.intern.number else l.extern.number <= l.middle.number <= l.intern.number)
  {
    hide Control, Step, JobsBelow, Init;
    if acts == [] {
      InitStates(sys, clock, threads, c);
    } else {
      OneValuePerCycle(sys, clock, threads, acts[..|acts| - 1], c);
      StepStates(sys, Run(sys, Init(sys, clock, threads), acts[..|acts| - 1]), acts[|acts| - 1], c);
    }
  }

  /** From any reachable state on, no buffer ever goes back to an older sample. */
  lemma {:induction false} NeverBackwards(sys: System, s: State, acts: seq<Action>, c: nat)
    requires StatesOk(sys, s, c)
    ensures StatesOk(sys, Run(sys, s, acts), c)
    ensures var l, m := s.links[c].latch, Run(sys, s, acts).links[c].latch;
      l.intern.number <= m.intern.number && l.middle.number <= m.middle.number && l.extern.number <= m.extern.number
  {
    hide Control, Step, JobsBelow;
    if acts != [] {
      NeverBackwards(sys, s, acts[..|acts| - 1], c);
      StepStates(sys, Run(sys, s, acts[..|acts| - 1]), acts[|acts| - 1], c);
    }
  }
}
