/**
 * The other half of ownership: whenever two tasks of equal rate are connected and the timeout
 * handler may go on, some run lets the main thread touch a cell while its user is at work.
 */
module SchedulerRace {
  import opened ConnectionBuffers
  import opened Scheduling
  import opened SchedulerControl
  import opened SchedulerEvents
  import opened SchedulerHistory
  import opened SchedulerOwnership

  // ---- composing runs ------------------------------------------------------------------------

  ghost predicate Leads(sys: System, s: State, n: State) { exists acts :: Run(sys, s, acts) == n }

  lemma {:induction false} RunConcat(sys: System, s: State, a: seq<Action>, b: seq<Action>)
    ensures Run(sys, Run(sys, s, a), b) == Run(sys, s, a + b)
  {
    hide Step;
    if b == [] {
      assert a + b == a;
    } else {
      var b' := b[..|b| - 1];
      assert (a + b)[..|a + b| - 1] == a + b';
      RunConcat(sys, s, a, b');
    }
  }

  lemma LeadsTrans(sys: System, s: State, n: State, m: State)
    requires Leads(sys, s, n) && Leads(sys, n, m)
    ensures Leads(sys, s, m)
  {
    var a, b :| Run(sys, s, a) == n && Run(sys, n, b) == m;
    RunConcat(sys, s, a, b);
  }

  lemma LeadsStep(sys: System, s: State, a: Action)
    ensures Leads(sys, s, s) && Leads(sys, s, Step(sys, s, a))
  {
    hide Step;
    assert Run(sys, s, []) == s;
    assert [a][..0] == [];
    assert Run(sys, s, [a]) == Step(sys, s, a);
  }

  /** n can be reached from s, and is well formed. */
  ghost predicate Reaches(sys: System, s: State, n: State) { Leads(sys, s, n) && Control(sys, n) }

  lemma Go(sys: System, s: State, n: State, a: Action)
    requires Reaches(sys, s, n)
    ensures Reaches(sys, s, Step(sys, n, a))
  {
    hide Control, Step, Leads;
    StepControl(sys, n, a);
    LeadsStep(sys, n, a);
    LeadsTrans(sys, s, n, Step(sys, n, a));
  }

  lemma Join(sys: System, s: State, n: State, m: State)
    requires Reaches(sys, s, n) && Reaches(sys, n, m)
    ensures Reaches(sys, s, m)
  {
    hide Control, Leads;
    LeadsTrans(sys, s, n, m);
  }

  lemma Start(sys: System, s: State)
    requires Control(sys, s)
    ensures Reaches(sys, s, s)
  {
    LeadsStep(sys, s, Main);
  }

  // ---- the main thread alone -----------------------------------------------------------------

  /** One task is looked at; the handler goes on past a task that is not done. */
  lemma CheckOne(sys: System, s: State) returns (n: State)
    requires Control(sys, s) && s.pc.Checking? && s.pc.i < sys.sizes.Get(s.pc.rate)
    ensures Reaches(sys, s, n)
    ensures var t := Task(s.pc.rate, s.pc.i);
      n == (if t in s.flags then s else MarkDone(s, s.pc.rate, s.pc.i)).(pc := Checking(s.pc.now, s.pc.rate, s.pc.i + 1))
  {
    hide Control, Groups.Get, Groups.Set, Reaches;
    Start(sys, s);
    Go(sys, s, s, Main);
    n := Step(sys, s, Main);
    if Task(s.pc.rate, s.pc.i) in s.flags {
      Go(sys, s, n, TimedOut(true));
      n := Step(sys, n, TimedOut(true));
      Go(sys, s, n, Main);
      n := Step(sys, n, Main);
    }
  }

  /** From the check of task i on: exactly the tasks that are done are taken up. */
  ghost predicate Checked(sys: System, s: State, n: State, r: Rate, i: nat) {
    && n == s.(pc := n.pc, done := n.done) && s.done.Get(r) <= n.done.Get(r)
    && (forall q :: q != r ==> n.done.Get(q) == s.done.Get(q))
    && forall j: nat :: i <= j < sys.sizes.Get(r) && Task(r, j) !in s.flags ==> Task(r, j) in n.done.Get(r)
  }

  lemma CheckedNext(sys: System, s: State, m: State, n: State, r: Rate, i: nat)
    requires m == (if Task(r, i) in s.flags then s else MarkDone(s, r, i)).(pc := m.pc) && Checked(sys, m, n, r, i + 1)
    ensures Checked(sys, s, n, r, i)
  {
    hide Groups.Get, Groups.Set;
    forall j: nat | i <= j < sys.sizes.Get(r) && Task(r, j) !in s.flags ensures Task(r, j) in n.done.Get(r) {
      if j == i { assert m.done.Get(r)[|s.done.Get(r)|] == Task(r, i); }
    }
  }

  lemma {:induction false} CheckPhase(sys: System, s: State) returns (n: State)
    requires Control(sys, s) && s.pc.Checking?
    ensures Reaches(sys, s, n) && n.pc == Switching(s.pc.now, s.pc.rate, 0) && Checked(sys, s, n, s.pc.rate, s.pc.i)
    decreases sys.sizes.Get(s.pc.rate) - s.pc.i
  {
    hide Control, Leads;
    var r, i := s.pc.rate, s.pc.i;
    if i >= sys.sizes.Get(r) {
      Start(sys, s);
      Go(sys, s, s, Main);
      n := Step(sys, s, Main);
    } else {
      var m := CheckOne(sys, s);
      n := CheckPhase(sys, m);
      Join(sys, s, m, n);
      CheckedNext(sys, s, m, n, r, i);
    }
  }

  /** Connections at neither end of which stands a task of ts are as they were. */
  ghost predicate Untouched(sys: System, s: State, n: State, ts: set<Task>) {
    && |n.links| == |s.links| == |sys.conns|
    && forall c :: 0 <= c < |sys.conns| && sys.conns[c].active !in ts && sys.conns[c].passive !in ts ==> n.links[c] == s.links[c]
  }

  /** The switch tick of one task goes over all connections. */
  lemma {:induction false} TickPhase(sys: System, s: State) returns (n: State)
    requires Control(sys, s) && s.pc.Ticking?
    ensures Reaches(sys, s, n) && n == s.(pc := Switching(s.pc.now, s.pc.rate, s.pc.i + 1), links := n.links)
    ensures Untouched(sys, s, n, {s.done.Get(s.pc.rate)[s.pc.i]})
    decreases |sys.conns| - s.pc.k
  {
    hide JobsOk, FlagsOk, Single, Leads, Groups.Get, Groups.Set;
    Start(sys, s);
    Go(sys, s, s, Main);
    n := Step(sys, s, Main);
    if n.pc.Ticking? {
      var m := n;
      n := TickPhase(sys, m);
      Join(sys, s, m, n);
    }
  }

  lemma SwitchMarks(sys: System, s: State)
    requires Control(sys, s) && s.pc.Switching? && s.pc.i < |s.done.Get(s.pc.rate)|
    ensures var t := s.done.Get(s.pc.rate)[s.pc.i];
      MainStep(sys, s) == s.(flags := s.flags + {t}, log := s.log + [Switch(t, s.pc.now)], pc := Ticking(s.pc.now, s.pc.rate, s.pc.i, 0))
  {
    hide JobsOk, LinksOk, Single, Groups.Get, Groups.Set, InGroup;
    MainControl(sys, s);
  }

  lemma SwitchesEnd(sys: System, s: State)
    requires Control(sys, s) && s.pc.Switching? && s.pc.i >= |s.done.Get(s.pc.rate)|
    ensures MainStep(sys, s) == s.(pc := Dispatching(s.pc.now, s.pc.rate, 0))
    ensures s.flags + Elems(s.done.Get(s.pc.rate)) == s.flags && |s.links| == |sys.conns|
  {
    hide JobsOk, Single, Groups.Get, Groups.Set, InGroup;
    var h := s.done.Get(s.pc.rate);
    assert h[..s.pc.i] == h;
  }

  /** Switch ticks for the tasks from index i on. */
  lemma {:induction false} SwitchPhase(sys: System, s: State) returns (n: State)
    requires Control(sys, s) && s.pc.Switching?
    ensures Reaches(sys, s, n)
    ensures n == s.(pc := Dispatching(s.pc.now, s.pc.rate, 0), links := n.links, log := n.log, flags := s.flags + Elems(s.done.Get(s.pc.rate)))
    ensures Untouched(sys, s, n, Elems(s.done.Get(s.pc.rate)))
    decreases |s.done.Get(s.pc.rate)| - s.pc.i
  {
    hide Control, Leads, MainStep, Groups.Get, Groups.Set;
    Start(sys, s);
    Go(sys, s, s, Main);
    var h, i := s.done.Get(s.pc.rate), s.pc.i;
    n := Step(sys, s, Main);
    if i < |h| {
      SwitchMarks(sys, s);
      var m := TickPhase(sys, n);
      Join(sys, s, n, m);
      n := SwitchPhase(sys, m);
      Join(sys, s, m, n);
      assert h[i] in Elems(h);
    } else {
      SwitchesEnd(sys, s);
    }
  }

  lemma {:induction false} DispatchPhase(sys: System, s: State) returns (n: State)
    requires Control(sys, s) && s.pc.Dispatching?
    ensures Reaches(sys, s, n)
    ensures n == s.(pc := AfterGroup(s.pc.now, s.pc.rate), done := s.done.Set(s.pc.rate, []), queue := n.queue, log := n.log)
    decreases |s.done.Get(s.pc.rate)| - s.pc.i
  {
    hide Control, Leads, Groups.Get, Groups.Set;
    Start(sys, s);
    Go(sys, s, s, Main);
    n := Step(sys, s, Main);
    if s.pc.i < |s.done.Get(s.pc.rate)| {
      var m := n;
      n := DispatchPhase(sys, m);
      Join(sys, s, m, n);
    }
  }

  // ---- whole calls of work() -----------------------------------------------------------------

  /** After the turn of group r its tasks are flagged if r was due; other flags are as before. */
  ghost predicate Passed(sys: System, s: State, n: State, r: Rate, due: bool) {
    && n.clock == s.clock && n.workers == s.workers && n.done == s.done && s.flags <= n.flags
    && (forall t :: t in n.flags && t.rate != r ==> t in s.flags)
    && (due ==> forall i: nat :: i < sys.sizes.Get(r) ==> Task(r, i) in n.flags)
    && |n.links| == |s.links| == |sys.conns|
    && forall c :: 0 <= c < |sys.conns| && sys.conns[c].active.rate != r && sys.conns[c].passive.rate != r ==> n.links[c] == s.links[c]
  }

  lemma GroupPass(sys: System, s: State) returns (n: State)
    requires Control(sys, s) && s.pc.Entering? && s.done.Get(s.pc.rate) == []
    ensures Reaches(sys, s, n) && n.pc == AfterGroup(s.pc.now, s.pc.rate) && Passed(sys, s, n, s.pc.rate, Due(s.pc.rate, s.pc.now))
  {
    hide JobsOk, Single, FlagsOk, Leads, Groups.Get, Groups.Set, AfterGroup, Due, Queued, Executing;
    var r := s.pc.rate;
    Start(sys, s);
    Go(sys, s, s, Main);
    n := Step(sys, s, Main);
    if Due(r, s.pc.now) {
      var m := CheckPhase(sys, n);
      Join(sys, s, n, m);
      var k := SwitchPhase(sys, m);
      Join(sys, s, m, k);
      n := DispatchPhase(sys, k);
      Join(sys, s, k, n);
      SameGroups(n.done, s.done);
      assert InGroup(sys, m.done.Get(r), r);
    }
  }

  /** Between calls, with nothing left in done_tasks. */
  ghost predicate Resting(s: State) { s.pc.Idle? && s.done == Groups([], [], []) }

  lemma CyclePass(sys: System, s: State) returns (n: State)
    requires Control(sys, s) && Resting(s)
    ensures Reaches(sys, s, n) && Resting(n) && n.clock == s.clock + 1 && n.workers == s.workers && s.flags <= n.flags
    ensures forall t :: sys.Has(t) && Due(t.rate, s.clock) ==> t in n.flags
  {
    hide Control, Leads, Due, Groups.Set;
    Start(sys, s);
    Go(sys, s, s, Call);
    var m := Step(sys, s, Call);
    var fast := GroupPass(sys, m);
    Join(sys, s, m, fast);
    var medium := GroupPass(sys, fast);
    Join(sys, s, fast, medium);
    n := GroupPass(sys, medium);
    Join(sys, s, medium, n);
    forall t | sys.Has(t) && Due(t.rate, s.clock) ensures t in n.flags {
      assert t == Task(t.rate, t.index);
    }
  }

  lemma {:induction false} Cycles(sys: System, s: State, k: nat) returns (n: State)
    requires Control(sys, s) && Resting(s)
    ensures Reaches(sys, s, n) && Resting(n) && n.clock == s.clock + k && n.workers == s.workers && s.flags <= n.flags
    ensures k > 0 ==> forall t :: sys.Has(t) && Due(t.rate, s.clock) ==> t in n.flags
    decreases k
  {
    hide Control, Leads, Due;
    if k == 0 {
      Start(sys, s);
      n := s;
    } else {
      var m := CyclePass(sys, s);
      n := Cycles(sys, m, k - 1);
      Join(sys, s, m, n);
    }
  }

  // ---- one worker alone ----------------------------------------------------------------------

  /** The loop of send_events runs to its end. */
  lemma {:induction false} DrainLoop(sys: System, s: State, w: nat) returns (n: State)
    requires Control(sys, s) && InLoop(sys, s, w) && s.workers[w].loop.end <= |s.links[s.workers[w].loop.conn].cells.extern|
    ensures Reaches(sys, s, n) && n == s.(workers := s.workers[w := s.workers[w].(loop := Quiet)], links := s.links[s.workers[w].loop.conn := n.links[s.workers[w].loop.conn]])
    ensures var l, m := s.links[s.workers[w].loop.conn], n.links[s.workers[w].loop.conn];
      && m == l.(cells := l.cells.(extern := []), delivered := m.delivered)
      && |m.delivered| == |l.delivered| + s.workers[w].loop.end - s.workers[w].loop.next
    decreases s.workers[w].loop.end - s.workers[w].loop.next
  {
    hide Leads, PcOk, FlagsOk, Single, Queued, Executing;
    var x := s.workers[w];
    assert WorkerOk(sys, x);
    Start(sys, s);
    if x.loop.next < x.loop.end {
      Go(sys, s, s, Deliver(w));
      var m := Step(sys, s, Deliver(w));
      n := DrainLoop(sys, m, w);
      Join(sys, s, m, n);
    } else {
      Go(sys, s, s, EndSend(w));
      n := Step(sys, s, EndSend(w));
    }
  }

  /** One work tick of the instance is dealt with. */
  lemma TickOff(sys: System, s: State, w: nat, e: nat) returns (n: State)
    requires Control(sys, s) && Active(s, w) && s.workers[w].loop.Quiet? && e in s.workers[w].todo
    ensures Reaches(sys, s, n)
    ensures n == s.(workers := s.workers[w := s.workers[w].(todo := s.workers[w].todo - {e})], links := n.links)
    ensures |n.links| == |s.links| && forall d :: 0 <= d < |s.links| && d != e ==> n.links[d] == s.links[d]
  {
    hide Leads, PcOk, FlagsOk, Single, Queued, Executing;
    assert WorkerOk(sys, s.workers[w]);
    Start(sys, s);
    Go(sys, s, s, Tick(w, e, 0));
    n := Step(sys, s, Tick(w, e, 0));
    if sys.conns[e].kind == Events {
      var m := n;
      n := DrainLoop(sys, m, w);
      Join(sys, s, m, n);
    }
  }

  /** The instance runs to its end. */
  lemma {:induction false} WorkOff(sys: System, s: State, w: nat) returns (n: State)
    requires Control(sys, s) && Active(s, w) && s.workers[w].loop.Quiet?
    ensures Reaches(sys, s, n)
    ensures n == s.(workers := s.workers[w := Off], links := n.links, flags := s.flags - {s.workers[w].job.task})
    ensures |n.links| == |s.links| && forall d :: 0 <= d < |s.links| && d !in s.workers[w].todo ==> n.links[d] == s.links[d]
    decreases |s.workers[w].todo|
  {
    hide Leads, Control;
    if s.workers[w].todo == {} {
      Start(sys, s);
      Go(sys, s, s, Finish(w));
      n := Step(sys, s, Finish(w));
    } else {
      var e :| e in s.workers[w].todo;
      var m := TickOff(sys, s, w, e);
      n := WorkOff(sys, m, w);
      Join(sys, s, m, n);
      assert s.workers[w := m.workers[w]][w := Off] == s.workers[w := Off];
    }
  }

  // ---- the active end has finished, the passive end has not ----------------------------------

  /** The second worker has taken the passive end's job and has not come to c yet. */
  ghost predicate Parked(sys: System, s: State, c: nat) {
    && c < |sys.conns| && |s.workers| == 2 && s.workers[0].Off? && s.workers[1].On?
    && s.workers[1].job.task == sys.conns[c].passive && s.workers[1].loop.Quiet? && c in s.workers[1].todo
  }

  /** The active end has run, and the event it fired lies in intern. */
  ghost predicate HasRun(sys: System, s: State, c: nat) {
    && c < |sys.conns| && c < |s.links| && sys.conns[c].active !in s.flags
    && (sys.conns[c].kind == Events ==> s.links[c].EventLink? && s.links[c].cells.intern != [])
  }

  ghost predicate Ready(sys: System, s: State, c: nat) {
    && Resting(s) && c < |sys.conns| && sys.conns[c].active != sys.conns[c].passive
    && |s.workers| == 2 && s.workers[0].Off?
    && (Parked(sys, s, c) || (s.workers[1].Off? && sys.conns[c].passive in Queued(s.queue)))
    && (HasRun(sys, s, c) || sys.conns[c].active in Queued(s.queue))
  }

  lemma StillQueued(queue: seq<Job>, t: Task)
    requires t in Queued(queue)
    ensures queue != [] && (queue[0].task != t ==> t in Queued(queue[1..]))
  {
    var i :| 0 <= i < |queue| && queue[i].task == t;
    if i > 0 { assert queue[1..][i - 1].task == t; }
  }

  /** The parked task is not in the queue. */
  lemma ParkedOnce(sys: System, s: State, c: nat)
    requires Control(sys, s) && Parked(sys, s, c) && s.queue != []
    ensures s.queue[0].task != sys.conns[c].passive
  {
    hide LinksOk, PcOk, FlagsOk, JobsOk;
    assert s.workers[1].job.task in Executing(s.workers);
    assert s.queue[0].task in Queued(s.queue);
  }

  /** Another job, or that of the active end, runs to its end; the active end fires an event. */
  lemma RunFirst(sys: System, s: State, c: nat) returns (n: State)
    requires Control(sys, s) && Ready(sys, s, c) && s.queue != [] && s.queue[0].task != sys.conns[c].passive
    ensures Reaches(sys, s, n) && Resting(n) && n.clock == s.clock && n.workers == s.workers && n.queue == s.queue[1..]
    ensures HasRun(sys, s, c) || s.queue[0].task == sys.conns[c].active ==> HasRun(sys, n, c)
  {
    hide Leads, PcOk, FlagsOk, Single, Queued, Executing;
    Start(sys, s);
    Go(sys, s, s, Take(0));
    var m := Step(sys, s, Take(0));
    assert m.workers == s.workers[0 := m.workers[0]];
    Go(sys, s, m, Fire(0, c, 0));
    m := Step(sys, m, Fire(0, c, 0));
    n := WorkOff(sys, m, 0);
    Join(sys, s, m, n);
    assert n.workers == s.workers;
  }

  lemma {:induction false} UntilRun(sys: System, s: State, c: nat) returns (n: State)
    requires Control(sys, s) && Ready(sys, s, c)
    ensures Reaches(sys, s, n) && Resting(n) && n.clock == s.clock && Parked(sys, n, c) && HasRun(sys, n, c)
    decreases |s.queue|
  {
    hide Leads, Control, Queued;
    Start(sys, s);
    n := s;
    var t, p := sys.conns[c].active, sys.conns[c].passive;
    if !(Parked(sys, s, c) && HasRun(sys, s, c)) {
      if Parked(sys, s, c) { StillQueued(s.queue, t); ParkedOnce(sys, s, c); } else { StillQueued(s.queue, p); }
      if t in Queued(s.queue) { StillQueued(s.queue, t); }
      var m: State;
      if s.queue[0].task == p {
        Go(sys, s, s, Take(1));
        m := Step(sys, s, Take(1));
      } else {
        m := RunFirst(sys, s, c);
      }
      n := UntilRun(sys, m, c);
      Join(sys, s, m, n);
    }
  }

  // ---- the switch tick that meets the other end at work --------------------------------------

  /** The groups before r have their turns; flags and connections of group r stay as they are. */
  lemma ToGroup(sys: System, s: State, r: Rate) returns (n: State)
    requires Control(sys, s) && s.pc.Entering? && s.pc.rate == Fast && s.done == Groups([], [], [])
    ensures Reaches(sys, s, n) && n.pc == Entering(s.pc.now, r) && n.done == s.done && n.workers == s.workers
    ensures forall i: nat :: Task(r, i) in n.flags <==> Task(r, i) in s.flags
    ensures |n.links| == |s.links| == |sys.conns|
    ensures forall c :: 0 <= c < |sys.conns| && sys.conns[c].active.rate == sys.conns[c].passive.rate == r ==> n.links[c] == s.links[c]
  {
    hide Leads, JobsOk, PcOk, Single, FlagsOk, Due;
    Start(sys, s);
    n := s;
    if r != Fast {
      n := GroupPass(sys, s);
      Join(sys, s, s, n);
      if r == Slow {
        var m := n;
        n := GroupPass(sys, m);
        Join(sys, s, m, n);
      }
    }
  }

  lemma {:induction false} TicksTo(sys: System, s: State, c: nat) returns (n: State)
    requires Control(sys, s) && s.pc.Ticking? && s.pc.k <= c < |sys.conns|
    ensures Reaches(sys, s, n) && n == s.(pc := s.pc.(k := c), links := n.links) && n.links[c] == s.links[c]
    decreases c - s.pc.k
  {
    hide Leads, FlagsOk, JobsOk, Single, Groups.Get, Queued, Executing, OnSwitch;
    Start(sys, s);
    if s.pc.k == c {
      n := s;
    } else {
      Go(sys, s, s, Main);
      var m := Step(sys, s, Main);
      n := TicksTo(sys, m, c);
      Join(sys, s, m, n);
    }
  }

  /** Switch ticks up to that of the active end of c; the passive end is not among them. */
  lemma {:induction false} SwitchTo(sys: System, s: State, c: nat) returns (n: State)
    requires Control(sys, s) && s.pc.Switching? && c < |sys.conns| && sys.conns[c].active in s.done.Get(s.pc.rate)[s.pc.i..]
    requires sys.conns[c].passive !in s.done.Get(s.pc.rate)
    ensures Reaches(sys, s, n) && TickAt(sys, n, c, sys.conns[c].active) && n.workers == s.workers
    ensures c < |s.links| == |n.links| && n.links[c] == s.links[c]
    decreases |s.done.Get(s.pc.rate)| - s.pc.i
  {
    hide Leads, JobsOk, Single, FlagsOk, Groups.Get, Groups.Set, InGroup, Queued, Executing;
    var h, i, t := s.done.Get(s.pc.rate), s.pc.i, sys.conns[c].active;
    Start(sys, s);
    Go(sys, s, s, Main);
    var m := Step(sys, s, Main);
    assert m.pc.Ticking? by { assert PcOk(sys, m.pc, m.done); }
    if h[i] == t {
      n := TicksTo(sys, m, c);
      Join(sys, s, m, n);
    } else {
      var k := TickPhase(sys, m);
      Join(sys, s, m, k);
      assert h[i..] == [h[i]] + h[i + 1..];
      n := SwitchTo(sys, k, c);
      Join(sys, s, k, n);
    }
  }

  lemma NotHeld(sys: System, s: State, c: nat)
    requires Control(sys, s) && Parked(sys, s, c)
    ensures sys.conns[c].passive !in Held(s.pc, s.done) && sys.conns[c].passive in Busy(s)
  {
    hide LinksOk, PcOk, JobsOk, Single, Groups.Get;
    assert s.workers[1].job.task in Executing(s.workers);
    assert Elems(Held(s.pc, s.done)) !! Busy(s);
  }

  /** The turn of the group: the active end is done and gets its switch tick. */
  lemma MeetsBusy(sys: System, s: State, c: nat) returns (n: State)
    requires Control(sys, s) && s.pc.Entering? && Due(s.pc.rate, s.pc.now) && s.done.Get(s.pc.rate) == []
    requires Parked(sys, s, c) && HasRun(sys, s, c) && sys.Has(sys.conns[c].active) && sys.conns[c].active.rate == s.pc.rate
    ensures Reaches(sys, s, n) && TickAt(sys, n, c, sys.conns[c].active) && Parked(sys, n, c)
    ensures c < |n.links| && n.links[c] == s.links[c]
  {
    hide Leads, JobsOk, LinksOk, Single, FlagsOk, Groups.Get, Groups.Set, InGroup, Queued, Executing, Due;
    var t := sys.conns[c].active;
    Start(sys, s);
    Go(sys, s, s, Main);
    var m := Step(sys, s, Main);
    var k := CheckPhase(sys, m);
    Join(sys, s, m, k);
    NotHeld(sys, k, c);
    assert k.done.Get(t.rate)[0..] == k.done.Get(t.rate) && t == Task(t.rate, t.index);
    n := SwitchTo(sys, k, c);
    Join(sys, s, k, n);
  }

  /** After one period without any work done, every task waits in the queue. */
  lemma AllQueued(sys: System, s: State, t: Task)
    requires Control(sys, s) && Resting(s) && t in s.flags && forall w :: 0 <= w < |s.workers| ==> s.workers[w].Off?
    ensures t in Queued(s.queue)
  {
    hide JobsOk, LinksOk, Single, PcOk;
  }

  /** Two tasks of equal rate, connected: the active end is switched while the other is at work. */
  lemma RaceRun(sys: System, c: nat) returns (n: State)
    requires sys.Valid() && c < |sys.conns| && sys.conns[c].SameRate()
    ensures Reaches(sys, Init(sys, 0, 2), n) && TickAt(sys, n, c, sys.conns[c].active) && Parked(sys, n, c)
    ensures c < |n.links| && (sys.conns[c].kind == Events ==> n.links[c].EventLink? && n.links[c].cells.intern != [])
  {
    hide Leads, Control, Queued, TickAt, Due, Step;
    var s, t, p := Init(sys, 0, 2), sys.conns[c].active, sys.conns[c].passive;
    InitControl(sys, 0, 2);
    var m := Cycles(sys, s, Period(t.rate));
    DueAgain(t.rate);
    AllQueued(sys, m, t);
    AllQueued(sys, m, p);
    n := UntilRun(sys, m, c);
    Join(sys, s, m, n);
    m := n;
    Go(sys, s, m, Call);
    m := Step(sys, m, Call);
    Called(sys, n);
    n := ToGroup(sys, m, t.rate);
    Join(sys, s, m, n);
    assert t == Task(t.rate, t.index);
    m := n;
    n := MeetsBusy(sys, m, c);
    Join(sys, s, m, n);
  }

  lemma DueAgain(r: Rate)
    ensures forall q :: Due(q, 0)
    ensures Due(r, Period(r)) && Period(r) > 0
  {
  }

  lemma Called(sys: System, s: State)
    requires Resting(s)
    ensures Step(sys, s, Call) == s.(pc := Entering(s.clock, Fast), clock := s.clock + 1, calm := false)
  {
  }

  /** The run is possible with a handler that may go on, or with one that never does. */
  predicate Allowed(goesOn: bool, acts: seq<Action>) { goesOn || NeverGoesOn(acts) }

  /** No run that the handler allows lets the main thread touch a cell whose user is busy. */
  ghost predicate Safe(sys: System, c: nat, goesOn: bool)
    requires c < |sys.conns|
  {
    forall clock, threads, acts, t, x ::
      Allowed(goesOn, acts) && TickAt(sys, Run(sys, Init(sys, clock, threads), acts), c, t) && Touches(sys.conns[c], t, x) ==>
        User(sys.conns[c], x) !in Busy(Run(sys, Init(sys, clock, threads), acts))
  }

  /**
   * The cells of a connection are safe exactly when its ends have different rates or the timeout
   * handler never goes on.
   */
  lemma SafeIff(sys: System, c: nat, goesOn: bool)
    requires sys.Valid() && c < |sys.conns|
    ensures Safe(sys, c, goesOn) <==> !sys.conns[c].SameRate() || !goesOn
  {
    hide Busy, TickAt, Run, Init, Control;
    if sys.conns[c].SameRate() && goesOn {
      var n := RaceRun(sys, c);
      NotHeld(sys, n, c);
      var acts :| Run(sys, Init(sys, 0, 2), acts) == n;
      var x := if sys.conns[c].kind == Events then Extern else Intern;
      assert Touches(sys.conns[c], sys.conns[c].active, x) && User(sys.conns[c], x) == sys.conns[c].passive;
    } else {
      forall clock, threads, acts, t, x |
        Allowed(goesOn, acts) && TickAt(sys, Run(sys, Init(sys, clock, threads), acts), c, t) && Touches(sys.conns[c], t, x)
        ensures User(sys.conns[c], x) !in Busy(Run(sys, Init(sys, clock, threads), acts))
      {
        Owned(sys, clock, threads, acts, c, t, x);
      }
    }
  }

  // ---- the lost event ------------------------------------------------------------------------

  /** An event appended to extern while the sink sends is cleared away unsent. */
  lemma LostRun(sys: System, s: State, c: nat) returns (n: State)
    requires Control(sys, s) && Parked(sys, s, c) && TickAt(sys, s, c, sys.conns[c].active) && sys.conns[c].SameRate()
    requires c < |s.links| && s.links[c].EventLink? && s.links[c].cells.intern != [] && Conserved(s.links[c], s.workers, c)
    ensures Reaches(sys, s, n) && c < |n.links| && n.links[c].EventLink? && !Conserved(n.links[c], n.workers, c)
  {
    hide Leads, PcOk, FlagsOk, Single, Queued, Executing, Groups.Get, JobsOk, Balanced;
    var l := s.links[c];
    assert !SendsOn(s.workers[0], c) && !SendsOn(s.workers[1], c) && Balanced(l, 0);
    Start(sys, s);
    Go(sys, s, s, Tick(1, c, 0));
    var m := Step(sys, s, Tick(1, c, 0));
    Go(sys, s, m, Main);
    m := Step(sys, m, Main);
    n := DrainLoop(sys, m, 1);
    Join(sys, s, m, n);
    assert !SendsOn(n.workers[0], c) && !SendsOn(n.workers[1], c);
    Lost(l, n.links[c]);
  }

  lemma Lost(l: Link, m: Link)
    requires l.EventLink? && m.EventLink? && Balanced(l, 0) && m.fired == l.fired && l.cells.intern != []
    requires |m.delivered| == |l.delivered| + |l.cells.extern| && m.cells == Cells([], l.cells.middle, [], l.cells.read)
    ensures !Balanced(m, 0)
  {
    assert |Tokens(l.delivered)| == |l.delivered| && |Tokens(m.delivered)| == |m.delivered|;
  }

  /** In every run that the handler allows, connection c loses nothing. */
  ghost predicate Lossless(sys: System, c: nat, goesOn: bool) {
    forall clock, threads, acts :: Allowed(goesOn, acts) ==> Kept(sys, Init(sys, clock, threads), acts, c)
  }

  /** What the run has fired is delivered or under way, in this order. */
  ghost predicate Kept(sys: System, start: State, acts: seq<Action>, c: nat) {
    var s := Run(sys, start, acts);
    && c < |s.links| && s.links[c].EventLink? && Conserved(s.links[c], s.workers, c)
    && s.links[c].fired == Shots(sys, start, acts, c)
  }

  lemma Unkept(sys: System, c: nat, clock: int, threads: nat, acts: seq<Action>)
    requires !Kept(sys, Init(sys, clock, threads), acts, c)
    ensures !Lossless(sys, c, true)
  {
    hide Run, Init, Kept;
    assert Allowed(true, acts);
  }

  /**
   * An event connection loses, duplicates and reorders nothing exactly when its ends have
   * different rates or the timeout handler never goes on.
   */
  lemma LosslessIff(sys: System, c: nat, goesOn: bool)
    requires sys.Valid() && c < |sys.conns| && sys.conns[c].kind == Events
    ensures Lossless(sys, c, goesOn) <==> !sys.conns[c].SameRate() || !goesOn
  {
    hide Control, Busy, TickAt, Run, Init, Conserved, Held, Balanced, Shots;
    if sys.conns[c].SameRate() && goesOn {
      var s := Init(sys, 0, 2);
      var n := RaceRun(sys, c);
      if Conserved(n.links[c], n.workers, c) {
        var m := LostRun(sys, n, c);
        Join(sys, s, n, m);
        n := m;
      }
      var acts :| Run(sys, s, acts) == n;
      Unkept(sys, c, 0, 2, acts);
    } else {
      forall clock, threads, acts | Allowed(goesOn, acts)
        ensures Kept(sys, Init(sys, clock, threads), acts, c)
      {
        var n := NothingLost(sys, clock, threads, acts, c);
      }
    }
  }
}
