/**
 * cycle_control as a class: work(), run_periodic_tasks() and wait_for_current_tasks() with the
 * loops of the source, workers acting between any two actions of the main thread.  Every action
 * is one step of the state machine, so all that is proved of its runs holds here.
 */
module CycleControls {
  import opened Scheduling
  import opened SchedulerControl
  import opened SchedulerEvents
  import opened SchedulerLog
  import opened SchedulerCalls

  class CycleControl {
    const sys: System
    /** A custom timeout handler may go on; the default one stores an exception and stops. */
    const custom: bool

    var clock: int
    var keepWorking: bool
    var flags: set<Task>
    var done: Groups<seq<Task>>
    var queue: seq<Job>
    var workers: seq<Worker>
    var links: seq<Link>
    var exceptions: seq<Task>

    /** Where the main thread stands, and the history the machine keeps; no method looks at them. */
    var pc: Pc
    var calm: bool
    var log: seq<Entry>

    ghost const start: State
    ghost var acts: seq<Action>
    /** How often the timeout handler was called. */
    ghost var asked: nat

    function Now(): State
      reads this
    {
      State(clock, keepWorking, pc, calm, flags, done, queue, workers, links, log)
    }

    /** The object is in a state that a run of the machine reaches. */
    ghost predicate Valid()
      reads this
    {
      && Now() == Run(sys, start, acts) && Control(sys, Now()) && WaitOk(sys, Now())
      && (!custom ==> Complete(sys, pc, done))
    }

    constructor (sys: System, custom: bool, clock: int, threads: nat)
      ensures Valid() && this.sys == sys && this.custom == custom && start == Init(sys, clock, threads)
      ensures pc.Idle? && this.clock == clock && exceptions == [] && acts == [] && EmptyOnEntry(Now())
    {
      this.sys, this.custom := sys, custom;
      var s := Init(sys, clock, threads);
      this.clock, keepWorking, flags, done := s.clock, s.keepWorking, s.flags, s.done;
      queue, workers, links, exceptions := s.queue, s.workers, s.links, [];
      pc, calm, log, start, acts, asked := s.pc, s.calm, s.log, s, [], 0;
      new;
      InitControl(sys, clock, threads);
    }

    /** The last action was a step of the machine, so the state is still reachable. */
    lemma Kept(before: State, earlier: seq<Action>, a: Action)
      requires before == Run(sys, start, earlier) && Control(sys, before) && WaitOk(sys, before)
      requires !custom ==> Complete(sys, before.pc, before.done) && a != TimedOut(true)
      requires Now() == Step(sys, before, a) && acts == earlier + [a]
      ensures Valid()
    {
      hide Control, WaitOk, Step, Complete;
      assert acts[..|acts| - 1] == earlier;
      StepControl(sys, before, a);
      StepWait(sys, before, a);
      if !custom { StepComplete(sys, before, a); }
    }

    /** Any number of actions of the workers. */
    method Interfere()
      requires Valid()
      modifies this`flags, this`queue, this`workers, this`links, this`acts
      ensures Valid() && flags <= old(flags)
    {
      hide Control, WaitOk, Step, Complete;
      var n: int := *;
      for i := 0 to if n < 0 then 0 else n
        invariant Valid() && flags <= old(flags)
      {
        var a: Action := *;
        if ByWorker(a) {
          ghost var before, earlier := Now(), acts;
          var s := Step(sys, Now(), a);
          WorkerFrame(sys, before, a);
          WorkerFlags(sys, before, a);
          flags, queue, workers, links, acts := s.flags, s.queue, s.workers, s.links, acts + [a];
          Kept(before, earlier, a);
        }
      }
    }

    /** The timeout handler: store_exception, or a custom one that answers as it likes. */
    method TimeoutCallback(t: Task) returns (goOn: bool)
      modifies this`exceptions, this`asked
      ensures !custom ==> !goOn && exceptions == old(exceptions) + [t]
      ensures asked == old(asked) + 1
    {
      asked := asked + 1;
      if custom {
        goOn := *;
      } else {
        exceptions := exceptions + [t];
        goOn := false;
      }
    }

    /** The task is not done: the handler decides.  Stopping ends the call, and the main loop. */
    method Ask(now: int, r: Rate, i: nat) returns (ok: bool)
      requires Valid() && pc == Checking(now, r, i) && i < sys.sizes.Get(r) && Task(r, i) in flags && !calm
      modifies this`exceptions, this`asked, this`pc, this`keepWorking, this`acts, this`flags, this`queue, this`workers, this`links
      ensures Valid() && asked == old(asked) + 1 && flags <= old(flags)
      ensures ok ==> pc == Rechecking(now, r, i) && keepWorking == old(keepWorking) && custom
      ensures !ok ==> pc.Idle? && !keepWorking
      ensures !custom ==> !ok && exceptions == old(exceptions) + [Task(r, i)]
    {
      hide Control, Complete, WaitOk, Run, Groups.Get, Groups.Set;
      ghost var before, earlier := Now(), acts;
      pc, acts := Asking(now, r, i), acts + [Main];
      Kept(before, earlier, Main);
      ok := TimeoutCallback(Task(r, i));
      Interfere();
      before, earlier := Now(), acts;
      if ok {
        pc, acts := Rechecking(now, r, i), acts + [TimedOut(true)];
        Kept(before, earlier, TimedOut(true));
      } else {
        keepWorking, pc, acts := false, Idle, acts + [TimedOut(false)];
        Kept(before, earlier, TimedOut(false));
      }
    }

    /** done_tasks.emplace_back for a task found done, or nothing for one that is not. */
    method Note(now: int, r: Rate, i: nat)
      requires Valid() && i < sys.sizes.Get(r) && (pc == Rechecking(now, r, i) || (pc == Checking(now, r, i) && Task(r, i) !in flags))
      modifies this`done, this`pc, this`acts
      ensures Valid() && pc == Checking(now, r, i + 1) && forall q :: q != r ==> done.Get(q) == old(done.Get(q))
      ensures old(done.Get(r)) <= done.Get(r) && (Task(r, i) !in flags ==> Task(r, i) in done.Get(r))
    {
      hide Control, Complete, WaitOk, Run, Groups.Get, Groups.Set;
      ghost var before, earlier := Now(), acts;
      if Task(r, i) !in flags {
        done := done.Set(r, done.Get(r) + [Task(r, i)]);
      }
      pc, acts := Checking(now, r, i + 1), acts + [Main];
      Kept(before, earlier, Main);
    }

    /** Task i is still at work in a call that follows a clean wait: impossible. */
    lemma CalmDone(now: int, r: Rate, i: nat)
      requires Valid() && pc == Checking(now, r, i) && i < sys.sizes.Get(r) && calm
      ensures Task(r, i) !in flags
    {
      hide Control, Complete, Run, Groups.Get;
    }

    /** The body of the first loop of run_periodic_tasks, for task i. */
    method CheckTask(now: int, r: Rate, i: nat) returns (ok: bool)
      requires Valid() && pc == Checking(now, r, i) && i < sys.sizes.Get(r)
      modifies this`exceptions, this`asked, this`pc, this`keepWorking, this`acts, this`flags, this`queue, this`workers, this`links, this`done
      ensures Valid() && asked >= old(asked) && flags <= old(flags)
      ensures ok ==> pc == Checking(now, r, i + 1) && keepWorking == old(keepWorking)
      ensures ok ==> old(done.Get(r)) <= done.Get(r) && (Task(r, i) !in old(flags) ==> Task(r, i) in done.Get(r))
      ensures !ok ==> pc.Idle? && !keepWorking
      ensures calm ==> ok && asked == old(asked) && exceptions == old(exceptions)
      ensures forall q :: q != r ==> done.Get(q) == old(done.Get(q))
    {
      hide Control, Complete, WaitOk, Run, Groups.Get, Groups.Set;
      ok := true;
      Interfere();
      if calm { CalmDone(now, r, i); }
      if Task(r, i) in flags {
        ok := Ask(now, r, i);
        if !ok { return; }
        Interfere();
      }
      Note(now, r, i);
    }

    /** set_work_to_do(true) and the switch tick, buffer by buffer. */
    method SwitchTask(now: int, r: Rate, i: nat)
      requires Valid() && pc == Switching(now, r, i) && i < |done.Get(r)|
      modifies this`flags, this`pc, this`log, this`acts, this`links, this`queue, this`workers
      ensures Valid() && pc == Switching(now, r, i + 1) && log == old(log) + [Switch(done.Get(r)[i], now)]
      ensures OnlyOf(old(flags), flags, r)
    {
      hide Control, Complete, WaitOk, Run, Groups.Get, Groups.Set, OnSwitch;
      var t := done.Get(r)[i];
      Interfere();
      Mark(now, r, i);
      Interfere();
      for k := 0 to |sys.conns|
        invariant Valid() && pc == Ticking(now, r, i, k) && log == old(log) + [Switch(t, now)] && OnlyOf(old(flags), flags, r)
      {
        SwitchOne(now, r, i, k);
        Interfere();
      }
      ghost var before, earlier := Now(), acts;
      pc, acts := Switching(now, r, i + 1), acts + [Main];
      Kept(before, earlier, Main);
    }

    /** The task held is done, as the source asserts. */
    lemma HeldDone(now: int, r: Rate, i: nat)
      requires Valid() && pc == Switching(now, r, i) && i < |done.Get(r)|
      ensures done.Get(r)[i] !in flags && done.Get(r)[i].rate == r
    {
      hide WaitOk, Complete, Run, Groups.Get, JobsOk, LinksOk, Single, Queued, Executing;
      var h := done.Get(r);
      assert h[i] in Elems(h);
      assert h[i] !in h[..i];
    }

    method Mark(now: int, r: Rate, i: nat)
      requires Valid() && pc == Switching(now, r, i) && i < |done.Get(r)|
      modifies this`flags, this`pc, this`log, this`acts
      ensures Valid() && pc == Ticking(now, r, i, 0) && log == old(log) + [Switch(done.Get(r)[i], now)]
      ensures OnlyOf(old(flags), flags, r)
    {
      hide Control, Complete, WaitOk, Run, Groups.Get, Groups.Set;
      ghost var before, earlier := Now(), acts;
      HeldDone(now, r, i);
      var t := done.Get(r)[i];
      flags := flags + {t};
      log, pc, acts := log + [Switch(t, now)], Ticking(now, r, i, 0), acts + [Main];
      Kept(before, earlier, Main);
    }

    method SwitchOne(now: int, r: Rate, i: nat, k: nat)
      requires Valid() && pc == Ticking(now, r, i, k) && k < |sys.conns|
      modifies this`links, this`pc, this`acts
      ensures Valid() && pc == Ticking(now, r, i, k + 1)
    {
      hide JobsOk, FlagsOk, Single, Complete, WaitOk, Run, Groups.Get, Groups.Set, OnSwitch, InGroup;
      ghost var before, earlier := Now(), acts;
      links := links[k := OnSwitch(sys.conns[k], links[k], done.Get(r)[i])];
      pc, acts := Ticking(now, r, i, k + 1), acts + [Main];
      Kept(before, earlier, Main);
    }

    /** scheduler_->add_task */
    method DispatchTask(now: int, r: Rate, i: nat)
      requires Valid() && pc == Dispatching(now, r, i) && i < |done.Get(r)|
      modifies this`queue, this`pc, this`log, this`acts
      ensures Valid() && pc == Dispatching(now, r, i + 1) && log == old(log) + [Dispatch(done.Get(r)[i], now)]
    {
      hide Control, Complete, WaitOk, Run, Groups.Get, Groups.Set;
      ghost var before, earlier := Now(), acts;
      var t := done.Get(r)[i];
      queue := queue + [Job(t, now)];
      log, pc, acts := log + [Dispatch(t, now)], Dispatching(now, r, i + 1), acts + [Main];
      Kept(before, earlier, Main);
    }

    method Enter(now: int, r: Rate)
      requires Valid() && pc == Entering(now, r) && Due(r, now) && done.Get(r) == []
      modifies this`pc, this`acts
      ensures Valid() && pc == Checking(now, r, 0)
    {
      hide Control, Complete, WaitOk, Run, Groups.Get, Groups.Set, Due;
      ghost var before, earlier := Now(), acts;
      pc, acts := Checking(now, r, 0), acts + [Main];
      Kept(before, earlier, Main);
    }

    /** The first loop: which tasks are done. */
    method CheckGroup(now: int, r: Rate) returns (ok: bool)
      requires Valid() && pc == Checking(now, r, 0)
      modifies this`exceptions, this`asked, this`pc, this`keepWorking, this`acts, this`flags, this`queue, this`workers, this`links, this`done
      ensures Valid() && asked >= old(asked) && flags <= old(flags)
      ensures ok ==> pc == Switching(now, r, 0) && keepWorking == old(keepWorking)
      ensures ok ==> Covers(old(flags), r, sys.sizes.Get(r), done.Get(r))
      ensures !ok ==> pc.Idle? && !keepWorking
      ensures calm ==> ok && asked == old(asked) && exceptions == old(exceptions)
      ensures forall q :: q != r ==> done.Get(q) == old(done.Get(q))
    {
      hide Control, Complete, WaitOk, Run, Groups.Get, Groups.Set;
      ok := true;
      for i := 0 to sys.sizes.Get(r)
        invariant Valid() && pc == Checking(now, r, i) && keepWorking == old(keepWorking) && asked >= old(asked)
        invariant flags <= old(flags) && Covers(old(flags), r, i, done.Get(r))
        invariant calm ==> asked == old(asked) && exceptions == old(exceptions)
        invariant forall q :: q != r ==> done.Get(q) == old(done.Get(q))
      {
        ok := CheckTask(now, r, i);
        if !ok { return; }
      }
      ghost var before, earlier := Now(), acts;
      pc, acts := Switching(now, r, 0), acts + [Main];
      Kept(before, earlier, Main);
      ok := true;
    }

    /** The second loop: all switch ticks. */
    method SwitchGroup(now: int, r: Rate)
      requires Valid() && pc == Switching(now, r, 0)
      modifies this`flags, this`pc, this`log, this`acts, this`links, this`queue, this`workers
      ensures Valid() && pc == Dispatching(now, r, 0) && log == old(log) + Switches(done.Get(r), now)
      ensures OnlyOf(old(flags), flags, r)
    {
      hide Control, Complete, WaitOk, Run, Groups.Get, Groups.Set;
      var ts := done.Get(r);
      for i := 0 to |ts|
        invariant Valid() && pc == Switching(now, r, i) && log == old(log) + Switches(ts[..i], now) && OnlyOf(old(flags), flags, r)
      {
        SwitchTask(now, r, i);
        assert Switches(ts[..i + 1], now) == Switches(ts[..i], now) + [Switch(ts[i], now)];
      }
      ghost var before, earlier := Now(), acts;
      pc, acts := Dispatching(now, r, 0), acts + [Main];
      Kept(before, earlier, Main);
      assert ts[..|ts|] == ts;
    }

    /** The third loop: all dispatches; then done_tasks is cleared. */
    method DispatchGroup(now: int, r: Rate)
      requires Valid() && pc == Dispatching(now, r, 0)
      modifies this`flags, this`pc, this`log, this`acts, this`links, this`queue, this`workers, this`done
      ensures Valid() && pc == AfterGroup(now, r) && log == old(log) + Sent(old(done.Get(r)), now) && flags <= old(flags)
      ensures done == old(done).Set(r, [])
    {
      hide Control, Complete, WaitOk, Run, Groups.Get, Groups.Set, AfterGroup;
      var ts := done.Get(r);
      for i := 0 to |ts|
        invariant Valid() && pc == Dispatching(now, r, i) && done == old(done) && log == old(log) + Sent(ts[..i], now) && flags <= old(flags)
      {
        DispatchTask(now, r, i);
        assert Sent(ts[..i + 1], now) == Sent(ts[..i], now) + [Dispatch(ts[i], now)];
        Interfere();
      }
      ghost var before, earlier := Now(), acts;
      done := done.Set(r, []);
      pc, acts := AfterGroup(now, r), acts + [Main];
      Kept(before, earlier, Main);
      assert ts[..|ts|] == ts;
    }

    lemma Found(now: int, r: Rate)
      requires Valid() && pc == Switching(now, r, 0)
      ensures InGroup(sys, done.Get(r), r) && (!custom ==> done.Get(r) == Whole(r, sys.sizes.Get(r)))
    {
      hide WaitOk, JobsOk, LinksOk, Single, FlagsOk, InGroup, Groups.Get;
    }

    /**
     * run_periodic_tasks: ts are the tasks found done, among them all that were done on entry.
     * Each gets one switch tick and then one dispatch, unless the handler stops the call, which
     * then gives none.
     */
    method RunPeriodicTasks(now: int, r: Rate) returns (ok: bool, ghost ts: seq<Task>)
      requires Valid() && pc == Entering(now, r) && Due(r, now) && done.Get(r) == []
      modifies this`exceptions, this`asked, this`pc, this`keepWorking, this`acts, this`flags, this`queue, this`workers, this`links, this`done, this`log
      ensures Valid() && asked >= old(asked)
      ensures ok ==> pc == AfterGroup(now, r) && keepWorking == old(keepWorking) && done == old(done)
      ensures ok ==> log == old(log) + Block(Done(r, now, ts)) && InGroup(sys, ts, r)
      ensures ok ==> Covers(old(flags), r, sys.sizes.Get(r), ts) && (!custom ==> ts == Whole(r, sys.sizes.Get(r)))
      ensures OnlyOf(old(flags), flags, r)
      ensures !ok ==> pc.Idle? && !keepWorking && log == old(log)
      ensures calm ==> ok && asked == old(asked) && exceptions == old(exceptions)
    {
      hide Control, Complete, WaitOk, Run, Groups.Get, Groups.Set, AfterGroup, InGroup, Due, Valid, Switches, Sent, Whole;
      ts := [];
      Enter(now, r);
      ok := CheckGroup(now, r);
      if ok {
        Found(now, r);
        ts := done.Get(r);
        SwitchGroup(now, r);
        DispatchGroup(now, r);
        SameGroups(done, old(done));
      }
    }

    /** The lambda run_if_due of work(). */
    method RunIfDue(now: int, r: Rate) returns (ok: bool, ghost ds: seq<Done>)
      requires Valid() && pc == Entering(now, r) && (Due(r, now) ==> done.Get(r) == [])
      modifies this`exceptions, this`asked, this`pc, this`keepWorking, this`acts, this`flags, this`queue, this`workers, this`links, this`done, this`log
      ensures Valid() && log == old(log) + Blocks(ds) && asked >= old(asked)
      ensures ok ==> pc == AfterGroup(now, r) && keepWorking == old(keepWorking) && done == old(done)
      ensures ok ==> RanIfDue(ds, now, r, old(flags))
      ensures OnlyOf(old(flags), flags, r)
      ensures !ok ==> pc.Idle? && !keepWorking && ds == [] && Due(r, now)
      ensures calm ==> ok && asked == old(asked) && exceptions == old(exceptions)
    {
      hide Control, Complete, WaitOk, Run, Groups.Get, Groups.Set, AfterGroup, InGroup, Due, Block, Whole;
      ds := [];
      if Due(r, now) {
        ghost var ts;
        ok, ts := RunPeriodicTasks(now, r);
        if ok {
          ds := [Done(r, now, ts)];
          BlocksSnoc([], ds[0]);
        }
      } else {
        ghost var before, earlier := Now(), acts;
        pc, acts := AfterGroup(now, r), acts + [Main];
        Kept(before, earlier, Main);
        ok := true;
      }
    }

    /** A call of run_periodic_tasks for group r in cycle now: what it found done, given the flags before. */
    ghost predicate Ran(d: Done, now: int, r: Rate, before: set<Task>) {
      && d.rate == r && d.cycle == now && InGroup(sys, d.tasks, r) && Covers(before, r, sys.sizes.Get(r), d.tasks)
      && (!custom ==> d.tasks == Whole(r, sys.sizes.Get(r)))
    }

    /** What work() does for group r in cycle now: one such call if the group is due, none otherwise. */
    ghost predicate RanIfDue(ds: seq<Done>, now: int, r: Rate, before: set<Task>) {
      if Due(r, now) then |ds| == 1 && Ran(ds[0], now, r, before) else ds == []
    }

    /** Read the clock, advance it: the start of work(). */
    method Begin() returns (now: int)
      requires Valid() && (pc.Idle? || pc.Waited?)
      modifies this`clock, this`pc, this`calm, this`acts
      ensures Valid() && now == old(clock) && clock == now + 1 && pc == Entering(now, Fast)
      ensures calm <==> old(pc) == Waited(true)
    {
      hide Control, Complete, WaitOk, Run;
      ghost var before, earlier := Now(), acts;
      now := clock;
      clock := clock + 1;
      calm := pc.Waited? && pc.clean;
      pc, acts := Entering(now, Fast), acts + [Call];
      Kept(before, earlier, Call);
    }

    /**
     * work(): the clock advances by one tick, and the groups that are due get their calls in the
     * order fast, medium, slow; ds are the calls that ran to their end, each with all its tasks
     * that were done when work() was called.  After a wait in which no task timed out, all due
     * groups get their calls and the handler is not called.
     */
    method Work() returns (ghost ds: seq<Done>)
      requires Valid() && (pc.Idle? || pc.Waited?) && NothingLeft()
      modifies this
      ensures Valid() && pc.Idle? && clock == old(clock) + 1 && log == old(log) + Blocks(ds) && asked >= old(asked)
      ensures Turns(ds, old(clock), old(flags)) && (AllTurns(ds, old(clock), old(flags)) || !keepWorking)
      ensures AllTurns(ds, old(clock), old(flags)) ==> keepWorking == old(keepWorking) && done == old(done)
      ensures old(pc) == Waited(true) ==> AllTurns(ds, old(clock), old(flags)) && asked == old(asked) && exceptions == old(exceptions)
    {
      hide Control, Complete, WaitOk, Run, Due, Blocks, Valid, RanIfDue, Turns, AllTurns, OnlyOf, NoneSet, Groups.Get;
      ds := [];
      var now := Begin();
      BlocksEmpty();
      var ok;
      ghost var before := flags;
      ghost var fast, medium, slow;
      FirstTurns([], [], [], now, before);
      ok, fast := RunIfDue(now, Fast);
      if !ok { return; }
      FirstTurns(fast, [], [], now, before);
      ds := fast;
      ghost var mid := flags;
      ok, medium := RunIfDue(now, Medium);
      if !ok { return; }
      OthersKept(before, mid, flags);
      RanEarlier(medium, now, Medium, mid, before);
      FirstTurns(fast, medium, [], now, before);
      BlocksConcat(fast, medium);
      ds := fast + medium;
      mid := flags;
      ok, slow := RunIfDue(now, Slow);
      if !ok { return; }
      RanEarlier(slow, now, Slow, mid, before);
      FirstTurns(fast, medium, slow, now, before);
      BlocksConcat(fast + medium, slow);
      ds := fast + medium + slow;
    }

    /** Calls for other groups leave the flags of group r alone. */
    lemma RanEarlier(ds: seq<Done>, now: int, r: Rate, mid: set<Task>, before: set<Task>)
      requires NoneSet(before, mid, r) && RanIfDue(ds, now, r, mid)
      ensures RanIfDue(ds, now, r, before)
    {
    }

    lemma OthersKept(before: set<Task>, mid: set<Task>, after: set<Task>)
      requires OnlyOf(before, mid, Fast) && OnlyOf(mid, after, Medium)
      ensures NoneSet(before, mid, Medium) && NoneSet(before, after, Slow)
    {
    }

    /** The calls for the groups so far are turns of the cycle, and not all while a due group is missing. */
    lemma FirstTurns(fast: seq<Done>, medium: seq<Done>, slow: seq<Done>, now: int, before: set<Task>)
      ensures Turns([], now, before) && (Due(Fast, now) ==> !AllTurns([], now, before))
      ensures RanIfDue(fast, now, Fast, before) ==> Turns(fast, now, before) && (Due(Medium, now) ==> !AllTurns(fast, now, before))
      ensures RanIfDue(fast, now, Fast, before) && RanIfDue(medium, now, Medium, before) ==>
        Turns(fast + medium, now, before) && (Due(Slow, now) ==> !AllTurns(fast + medium, now, before))
      ensures RanIfDue(fast, now, Fast, before) && RanIfDue(medium, now, Medium, before) && RanIfDue(slow, now, Slow, before) ==>
        Turns(fast + medium + slow, now, before) && AllTurns(fast + medium + slow, now, before)
    {
      hide Ran, Due;
    }

    /** The lambda wait_for_tasks of wait_for_current_tasks, for a group that is due or not. */
    method WaitForGroup(r: Rate, clean: bool) returns (ok: bool)
      requires Valid() && pc == Waiting(r, 0, clean)
      modifies this`exceptions, this`asked, this`pc, this`keepWorking, this`acts, this`flags, this`queue, this`workers, this`links
      ensures Valid() && flags <= old(flags)
      ensures ok ==> (pc == AfterWait(r, clean) || pc == AfterWait(r, false)) && keepWorking == old(keepWorking)
      ensures !ok ==> pc == Waited(false) && !keepWorking
      ensures ok && pc == AfterWait(r, true) ==> asked == old(asked) && exceptions == old(exceptions)
      ensures asked >= old(asked) && (pc != AfterWait(r, clean) ==> asked > old(asked))
    {
      hide Control, Complete, WaitOk, Run, Due, Groups.Get;
      ok := true;
      var still := clean;
      if Due(r, clock) {
        for i := 0 to sys.sizes.Get(r)
          invariant Valid() && pc == Waiting(r, i, still) && (still ==> clean) && keepWorking == old(keepWorking) && flags <= old(flags)
          invariant still ==> asked == old(asked) && exceptions == old(exceptions)
          invariant asked >= old(asked) && (still != clean ==> asked > old(asked))
        {
          ok, still := WaitForTask(r, i, still);
          if !ok { return; }
        }
        ok := true;
      }
      GroupWaited(r, still);
    }

    /** The end of the lambda: on to the next group. */
    method GroupWaited(r: Rate, clean: bool)
      requires Valid() && pc.Waiting? && pc.rate == r && pc.clean == clean && (Due(r, clock) ==> pc.i >= sys.sizes.Get(r))
      modifies this`pc, this`acts
      ensures Valid() && pc == AfterWait(r, clean)
    {
      hide Control, Complete, WaitOk, Run, Due, Groups.Get, AfterWait;
      ghost var before, earlier := Now(), acts;
      pc, acts := AfterWait(r, clean), acts + [Main];
      Kept(before, earlier, Main);
    }

    /** A timed wait for one task: at its end the task is done, or the handler is asked. */
    method WaitForTask(r: Rate, i: nat, clean: bool) returns (ok: bool, still: bool)
      requires Valid() && pc == Waiting(r, i, clean) && Due(r, clock) && i < sys.sizes.Get(r)
      modifies this`exceptions, this`asked, this`pc, this`keepWorking, this`acts, this`flags, this`queue, this`workers, this`links
      ensures Valid() && flags <= old(flags)
      ensures ok ==> pc == Waiting(r, i + 1, still) && keepWorking == old(keepWorking) && (still ==> clean)
      ensures !ok ==> pc == Waited(false) && !keepWorking
      ensures ok && still ==> asked == old(asked) && exceptions == old(exceptions)
      ensures asked >= old(asked) && (!ok || still != clean ==> asked > old(asked))
    {
      hide Control, Complete, WaitOk, Run, Due, Groups.Get;
      Interfere();
      if Task(r, i) !in flags {
        ghost var before, earlier := Now(), acts;
        pc, acts := Waiting(r, i + 1, clean), acts + [Main];
        Kept(before, earlier, Main);
        ok, still := true, clean;
      } else {
        ok := WaitExpires(r, i);
        still := false;
      }
    }

    method WaitExpires(r: Rate, i: nat) returns (ok: bool)
      requires Valid() && pc.Waiting? && pc.rate == r && pc.i == i && Due(r, clock) && i < sys.sizes.Get(r) && Task(r, i) in flags
      modifies this`exceptions, this`asked, this`pc, this`keepWorking, this`acts
      ensures Valid() && asked == old(asked) + 1
      ensures !custom ==> !ok && exceptions == old(exceptions) + [Task(r, i)]
      ensures ok ==> pc == Waiting(r, i + 1, false) && keepWorking == old(keepWorking)
      ensures !ok ==> pc == Waited(false) && !keepWorking
    {
      hide Control, Complete, WaitOk, Run, Due, Groups.Get, MainStep;
      ghost var before, earlier := Now(), acts;
      ok := TimeoutCallback(Task(r, i));
      acts := acts + [WaitTimedOut(ok)];
      if ok {
        pc := Waiting(r, i + 1, false);
      } else {
        keepWorking, pc := false, Waited(false);
      }
      Kept(before, earlier, WaitTimedOut(ok));
    }

    /** wait_for_current_tasks: if nothing timed out, every task that is due is done. */
    method WaitForCurrentTasks()
      requires Valid() && pc.Idle?
      modifies this`exceptions, this`asked, this`pc, this`keepWorking, this`acts, this`flags, this`queue, this`workers, this`links
      ensures Valid() && pc.Waited?
      ensures pc.clean ==> asked == old(asked) && exceptions == old(exceptions) && keepWorking == old(keepWorking)
      ensures pc.clean ==> forall t :: sys.Has(t) && Due(t.rate, clock) ==> t !in flags
      ensures !pc.clean ==> asked > old(asked)
      ensures flags <= old(flags)
    {
      hide Valid, Run, Due;
      WaitCalled();
      var ok := WaitForGroup(Slow, true);
      if ok {
        ok := WaitForGroup(Medium, pc.clean);
        if ok {
          ok := WaitForGroup(Fast, pc.clean);
          if ok && pc.clean { AllDone(); }
        }
      }
    }

    method WaitCalled()
      requires Valid() && pc.Idle?
      modifies this`pc, this`acts
      ensures Valid() && pc == Waiting(Slow, 0, true)
    {
      hide Control, Complete, WaitOk, Run, Due, MainStep;
      ghost var before, earlier := Now(), acts;
      pc, acts := Waiting(Slow, 0, true), acts + [WaitCall];
      Kept(before, earlier, WaitCall);
    }

    lemma AllDone()
      requires Valid() && pc == Waited(true)
      ensures forall t :: sys.Has(t) && Due(t.rate, clock) ==> t !in flags
    {
      hide Control, Complete, Run, Due;
      forall t | sys.Has(t) && Due(t.rate, clock) ensures t !in flags {
        assert Free(flags, clock, t.rate, 0, sys.sizes.Get(t.rate));
        assert t == Task(t.rate, t.index);
      }
    }

    /** One pass of afap_main_loop. */
    method LoopBody() returns (ghost ds: seq<Done>)
      requires Valid() && pc.Idle? && NothingLeft()
      modifies this
      ensures Valid() && pc.Idle? && clock == old(clock) + 1 && log == old(log) + Blocks(ds)
      ensures asked == old(asked) ==> AllTurns(ds, old(clock), old(flags)) && keepWorking == old(keepWorking) && done == old(done)
    {
      hide Control, Complete, WaitOk, Run, Due, Blocks, Ran, Valid;
      WaitForCurrentTasks();
      ghost var flagged := flags;
      ds := Work();
      FewerFlagged(ds, old(clock), flagged, old(flags));
    }

    /** Fewer flags before a call mean more tasks that it must find done. */
    lemma FewerFlagged(ds: seq<Done>, now: int, less: set<Task>, before: set<Task>)
      requires less <= before
      ensures Turns(ds, now, less) ==> Turns(ds, now, before)
    {
    }

    /** As the source asserts: no group that is due has tasks left in done_tasks. */
    ghost predicate NothingLeft()
      reads this
    {
      forall r :: Due(r, clock) ==> done.Get(r) == []
    }

    /** ds are calls of cycle now, for the first of the due groups. */
    ghost predicate Turns(ds: seq<Done>, now: int, before: set<Task>) {
      |ds| <= |DueRates(now)| && forall i :: 0 <= i < |ds| ==> Ran(ds[i], now, DueRates(now)[i], before)
    }

    ghost predicate AllTurns(ds: seq<Done>, now: int, before: set<Task>) { Turns(ds, now, before) && |ds| == |DueRates(now)| }
  }

  /** Flags have been set for tasks of group r only. */
  ghost predicate OnlyOf(before: set<Task>, now: set<Task>, r: Rate) {
    forall t :: t in now && t.rate != r ==> t in before
  }

  /** The groups due in a cycle, in the order in which work() turns to them. */
  function DueRates(now: int): seq<Rate> {
    (if Due(Fast, now) then [Fast] else []) + (if Due(Medium, now) then [Medium] else []) + (if Due(Slow, now) then [Slow] else [])
  }

  lemma BlocksEmpty()
    ensures Blocks([]) == []
  {
  }

  lemma {:induction false} BlocksConcat(a: seq<Done>, b: seq<Done>)
    ensures Blocks(a + b) == Blocks(a) + Blocks(b)
  {
    if b == [] {
      assert a + b == a;
    } else {
      var b' := b[..|b| - 1];
      assert (a + b)[..|a + b| - 1] == a + b';
      BlocksConcat(a, b');
    }
  }
}
