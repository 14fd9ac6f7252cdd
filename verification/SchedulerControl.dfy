/**
 * What every step of the scheduler keeps about flags, instances and done_tasks: at most one
 * queued or running instance per task, and none while the main thread holds the task.
 */
module SchedulerControl {
  import opened Scheduling

  // ---- instances -----------------------------------------------------------------------------

  ghost function Queued(queue: seq<Job>): set<Task> {
    set i | 0 <= i < |queue| :: queue[i].task
  }

  ghost function Executing(workers: seq<Worker>): set<Task> {
    set w | 0 <= w < |workers| && workers[w].On? :: workers[w].job.task
  }

  /** The tasks with a queued or running instance. */
  ghost function Busy(s: State): set<Task> { Queued(s.queue) + Executing(s.workers) }

  /** No task has two queued or running instances. */
  ghost predicate Single(queue: seq<Job>, workers: seq<Worker>) {
    && (forall i, j :: 0 <= i < j < |queue| ==> queue[i].task != queue[j].task)
    && (forall v, w :: 0 <= v < w < |workers| && workers[v].On? && workers[w].On? ==> workers[v].job.task != workers[w].job.task)
    && Queued(queue) !! Executing(workers)
  }

  lemma Push(queue: seq<Job>, workers: seq<Worker>, j: Job)
    requires Single(queue, workers) && j.task !in Queued(queue) && j.task !in Executing(workers)
    ensures Single(queue + [j], workers) && Queued(queue + [j]) == Queued(queue) + {j.task}
  {
    var q := queue + [j];
    forall t | t in Queued(queue) + {j.task} ensures t in Queued(q) {
      if t == j.task {
        assert q[|queue|].task == t;
      } else {
        var i :| 0 <= i < |queue| && queue[i].task == t;
        assert q[i].task == t;
      }
    }
  }

  lemma Pop(queue: seq<Job>, workers: seq<Worker>, w: nat, x: Worker)
    requires Single(queue, workers) && queue != [] && w < |workers| && workers[w].Off?
    requires x.On? && x.job == queue[0]
    ensures Single(queue[1..], workers[w := x])
    ensures Queued(queue[1..]) + Executing(workers[w := x]) == Queued(queue) + Executing(workers)
  {
    var q, ws, t := queue[1..], workers[w := x], queue[0].task;
    forall u | u in Queued(queue) ensures u == t || u in Queued(q) {
      var i :| 0 <= i < |queue| && queue[i].task == u;
      if i > 0 { assert q[i - 1].task == u; }
    }
    forall u | u in Executing(workers) ensures u in Executing(ws) {
      var v :| 0 <= v < |workers| && workers[v].On? && workers[v].job.task == u;
      assert ws[v].job.task == u;
    }
    assert ws[w].job.task == t;
    assert t in Queued(queue);
    assert t !in Queued(q);
    assert Executing(ws) == Executing(workers) + {t};
    assert t !in Executing(workers);
  }

  /** A change inside one worker that keeps its job changes nothing about the instances. */
  lemma JobKept(workers: seq<Worker>, w: nat, x: Worker)
    requires w < |workers| && workers[w].On? && x.On? && x.job.task == workers[w].job.task
    ensures Executing(workers[w := x]) == Executing(workers)
  {
    var ws := workers[w := x];
    forall t | t in Executing(workers) ensures t in Executing(ws) {
      var v :| 0 <= v < |workers| && workers[v].On? && workers[v].job.task == t;
      assert ws[v].job.task == t;
    }
    assert workers[w].job.task in Executing(workers);
  }

  lemma Drop(queue: seq<Job>, workers: seq<Worker>, w: nat)
    requires Single(queue, workers) && w < |workers| && workers[w].On?
    ensures Single(queue, workers[w := Off])
    ensures workers[w].job.task in Executing(workers)
    ensures Executing(workers[w := Off]) == Executing(workers) - {workers[w].job.task}
  {
    var ws := workers[w := Off];
    forall t | t in Executing(workers) && t != workers[w].job.task ensures t in Executing(ws) {
      var v :| 0 <= v < |workers| && workers[v].On? && workers[v].job.task == t;
      assert ws[v].job.task == t;
    }
    assert workers[w].job.task in Executing(workers);
  }

  // ---- the tasks the main thread holds -------------------------------------------------------

  /** The tasks taken up by the current call of run_periodic_tasks and not yet dispatched. */
  ghost function Held(pc: Pc, done: Groups<seq<Task>>): seq<Task> {
    match pc
    case Checking(_, r, _) => done.Get(r)
    case Asking(_, r, _) => done.Get(r)
    case Rechecking(_, r, _) => done.Get(r)
    case Switching(_, r, _) => done.Get(r)
    case Ticking(_, r, _, _) => done.Get(r)
    case Dispatching(_, r, i) => if i <= |done.Get(r)| then done.Get(r)[i..] else []
    case _ => []
  }

  /** Those of them whose flag is set already. */
  ghost function Marked(pc: Pc, done: Groups<seq<Task>>): seq<Task> {
    match pc
    case Switching(_, r, i) => if i <= |done.Get(r)| then done.Get(r)[..i] else []
    case Ticking(_, r, i, _) => if i < |done.Get(r)| then done.Get(r)[..i + 1] else []
    case Dispatching(_, r, i) => Held(pc, done)
    case _ => []
  }

  ghost predicate Ascending(h: seq<Task>) {
    forall i, j :: 0 <= i < j < |h| ==> h[i].index < h[j].index
  }

  ghost predicate Below(h: seq<Task>, i: nat) { forall j :: 0 <= j < |h| ==> h[j].index < i }

  /** done_tasks lists tasks of its own group, in their order there. */
  ghost predicate InGroup(sys: System, h: seq<Task>, r: Rate) {
    Ascending(h) && forall j :: 0 <= j < |h| ==> h[j].rate == r && sys.Has(h[j])
  }

  /** The main thread's indices are in range, and what it found done lies before its index. */
  ghost predicate PcOk(sys: System, pc: Pc, done: Groups<seq<Task>>) {
    match pc
    case Checking(_, r, i) => i <= sys.sizes.Get(r) && InGroup(sys, done.Get(r), r) && Below(done.Get(r), i)
    case Asking(_, r, i) => i < sys.sizes.Get(r) && InGroup(sys, done.Get(r), r) && Below(done.Get(r), i)
    case Rechecking(_, r, i) => i < sys.sizes.Get(r) && InGroup(sys, done.Get(r), r) && Below(done.Get(r), i)
    case Switching(_, r, i) => i <= |done.Get(r)| && InGroup(sys, done.Get(r), r)
    case Ticking(_, r, i, k) => i < |done.Get(r)| && k <= |sys.conns| && InGroup(sys, done.Get(r), r)
    case Dispatching(_, r, i) => i <= |done.Get(r)| && InGroup(sys, done.Get(r), r)
    case Failed(why) => why == LeftOver
    case _ => true
  }

  ghost function Elems(h: seq<Task>): set<Task> { set t | t in h }

  /** A flag is set exactly while the task is queued, running, or held and marked. */
  ghost predicate FlagsOk(flags: set<Task>, busy: set<Task>, pc: Pc, done: Groups<seq<Task>>) {
    flags == busy + Elems(Marked(pc, done)) && busy !! Elems(Held(pc, done))
  }

  // ---- the shape of links and workers --------------------------------------------------------

  ghost predicate WorkerOk(sys: System, x: Worker) {
    x.On? ==>
      && sys.Has(x.job.task) && x.todo <= sys.TickedBy(x.job.task)
      && (x.loop.Sending? ==>
            && x.loop.conn in sys.TickedBy(x.job.task) && x.loop.conn !in x.todo
            && sys.conns[x.loop.conn].kind == Events && x.loop.next <= x.loop.end)
  }

  ghost predicate LinksOk(sys: System, links: seq<Link>) {
    && |links| == |sys.conns|
    && forall c :: 0 <= c < |links| ==> (links[c].EventLink? <==> sys.conns[c].kind == Events)
  }

  ghost predicate JobsOk(sys: System, queue: seq<Job>, workers: seq<Worker>) {
    && (forall w :: 0 <= w < |workers| ==> WorkerOk(sys, workers[w]))
    && (forall i :: 0 <= i < |queue| ==> sys.Has(queue[i].task))
  }

  ghost predicate Control(sys: System, s: State) {
    && LinksOk(sys, s.links) && JobsOk(sys, s.queue, s.workers) && Single(s.queue, s.workers)
    && PcOk(sys, s.pc, s.done) && FlagsOk(s.flags, Busy(s), s.pc, s.done)
  }

  lemma InitControl(sys: System, clock: int, threads: nat)
    ensures Control(sys, Init(sys, clock, threads))
  {
    assert Busy(Init(sys, clock, threads)) == {};
  }

  // ---- the main thread keeps it --------------------------------------------------------------

  lemma CheckControl(sys: System, s: State)
    requires Control(sys, s) && (s.pc.Checking? || s.pc.Rechecking?)
    ensures Control(sys, MainStep(sys, s))
  {
    hide Single, JobsOk, LinksOk, Queued, Executing, Groups.Get, Groups.Set, InGroup;
    var n, h, r, i := MainStep(sys, s), s.done.Get(s.pc.rate), s.pc.rate, s.pc.i;
    assert n.done.Get(r) == h || n.done.Get(r) == h + [Task(r, i)];
    if i < sys.sizes.Get(r) { OneMore(sys, h, r, i); }
    assert Marked(n.pc, n.done) == [];
  }

  lemma OneMore(sys: System, h: seq<Task>, r: Rate, i: nat)
    requires InGroup(sys, h, r) && Below(h, i) && i < sys.sizes.Get(r)
    ensures InGroup(sys, h + [Task(r, i)], r) && Below(h + [Task(r, i)], i + 1) && Below(h, i + 1)
    ensures Elems(h + [Task(r, i)]) == Elems(h) + {Task(r, i)}
  {
  }

  lemma SwitchControl(sys: System, s: State)
    requires Control(sys, s) && s.pc.Switching?
    ensures Control(sys, MainStep(sys, s))
  {
    hide Single, JobsOk, LinksOk, Queued, Executing, Groups.Get, Groups.Set;
    var n, h, i := MainStep(sys, s), s.done.Get(s.pc.rate), s.pc.i;
    if i < |h| {
      assert h[..i + 1] == h[..i] + [h[i]];
      assert h[i] in h;
      assert h[i] !in h[..i];
    } else {
      assert h[..i] == h[0..] == h;
    }
  }

  lemma TickControl(sys: System, s: State)
    requires Control(sys, s) && s.pc.Ticking?
    ensures Control(sys, MainStep(sys, s))
  {
    hide Single, JobsOk, Queued, Executing, Groups.Get, Groups.Set, Elems, InGroup;
  }

  lemma DispatchControl(sys: System, s: State)
    requires Control(sys, s) && s.pc.Dispatching?
    ensures Control(sys, MainStep(sys, s))
  {
    hide Single, LinksOk, JobsOk, Queued, Executing, Groups.Get, Groups.Set, Ascending, AfterGroup;
    var n, h, i := MainStep(sys, s), s.done.Get(s.pc.rate), s.pc.i;
    if i < |h| {
      FirstHeld(sys, h, s.pc.rate, i);
      var j := Job(h[i], s.pc.now);
      assert Elems(Held(n.pc, n.done)) == Elems(h[i..]) - {h[i]};
      Push(s.queue, s.workers, j);
      JobPushed(sys, s.queue, s.workers, j);
    } else {
      assert h[i..] == [];
      AfterGroupOk(sys, n, s.pc.now, s.pc.rate);
    }
  }

  lemma AfterGroupOk(sys: System, n: State, now: int, r: Rate)
    requires n.pc == AfterGroup(now, r)
    ensures PcOk(sys, n.pc, n.done) && Held(n.pc, n.done) == Marked(n.pc, n.done) == []
  {
  }

  lemma FirstHeld(sys: System, h: seq<Task>, r: Rate, i: nat)
    requires InGroup(sys, h, r) && i < |h|
    ensures sys.Has(h[i]) && h[i] in Elems(h[i..]) && Elems(h[i + 1..]) == Elems(h[i..]) - {h[i]}
  {
    assert h[i..] == [h[i]] + h[i + 1..];
    assert h[i] !in h[i + 1..];
  }

  lemma JobPushed(sys: System, queue: seq<Job>, workers: seq<Worker>, j: Job)
    requires JobsOk(sys, queue, workers) && sys.Has(j.task)
    ensures JobsOk(sys, queue + [j], workers)
  {
  }

  lemma MainControl(sys: System, s: State)
    requires Control(sys, s)
    ensures Control(sys, MainStep(sys, s))
  {
    hide Single, JobsOk, LinksOk, Queued, Executing;
    match s.pc
    case Checking(now, r, i) => CheckControl(sys, s);
    case Rechecking(now, r, i) => CheckControl(sys, s);
    case Switching(now, r, i) => SwitchControl(sys, s);
    case Ticking(now, r, i, k) => TickControl(sys, s);
    case Dispatching(now, r, i) => DispatchControl(sys, s);
    case _ =>
  }

  // ---- the workers keep it -------------------------------------------------------------------

  predicate ByWorker(a: Action) {
    a.Take? || a.Fire? || a.Tick? || a.Deliver? || a.EndSend? || a.Pull? || a.Finish?
  }

  /** Workers leave the main thread's own state alone. */
  lemma WorkerFrame(sys: System, s: State, a: Action)
    requires ByWorker(a)
    ensures SameMain(s, Step(sys, s, a))
  {
    hide TakeStep, FireStep, TickStep, DeliverStep, EndSendStep, PullStep, FinishStep, SameMain;
  }

  /** Workers set no flags. */
  lemma WorkerFlags(sys: System, s: State, a: Action)
    requires ByWorker(a)
    ensures Step(sys, s, a).flags <= s.flags
  {
  }

  /** A step inside one worker that keeps its job, and the shape of the links. */
  lemma InsideControl(sys: System, s: State, w: nat, x: Worker, links: seq<Link>)
    requires Control(sys, s) && Active(s, w) && x.On? && x.job == s.workers[w].job && WorkerOk(sys, x)
    requires LinksOk(sys, links)
    ensures Control(sys, s.(workers := s.workers[w := x], links := links))
    ensures Executing(s.workers[w := x]) == Executing(s.workers)
  {
    hide Queued, Executing, FlagsOk, PcOk, WorkerOk, LinksOk;
    JobKept(s.workers, w, x);
  }

  lemma TickInside(sys: System, s: State, w: nat, c: nat, value: int)
    requires Control(sys, s)
    ensures Control(sys, TickStep(sys, s, w, c, value)) && Executing(TickStep(sys, s, w, c, value).workers) == Executing(s.workers)
  {
    hide Queued, Executing, FlagsOk, PcOk, Single;
    var n := TickStep(sys, s, w, c, value);
    if n != s {
      assert n == s.(workers := s.workers[w := n.workers[w]], links := n.links);
      InsideControl(sys, s, w, n.workers[w], n.links);
    }
  }

  lemma LoopInside(sys: System, s: State, a: Action)
    requires Control(sys, s) && (a.Deliver? || a.EndSend?)
    ensures Control(sys, Step(sys, s, a)) && Executing(Step(sys, s, a).workers) == Executing(s.workers)
  {
    hide Queued, Executing, FlagsOk, PcOk, Single;
    var n := Step(sys, s, a);
    if InLoop(sys, s, a.w) {
      assert n == s.(workers := s.workers[a.w := n.workers[a.w]], links := n.links);
      InsideControl(sys, s, a.w, n.workers[a.w], n.links);
    }
  }

  lemma WorkerControl(sys: System, s: State, a: Action)
    requires Control(sys, s)
    requires a.Fire? || a.Tick? || a.Deliver? || a.EndSend? || a.Pull?
    ensures Control(sys, Step(sys, s, a)) && Executing(Step(sys, s, a).workers) == Executing(s.workers)
  {
    hide Queued, Executing, FlagsOk, PcOk, Single, JobsOk, WorkerOk, TickStep, DeliverStep, EndSendStep;
    match a
    case Tick(w, c, value) => TickInside(sys, s, w, c, value);
    case Deliver(w) => LoopInside(sys, s, a);
    case EndSend(w) => LoopInside(sys, s, a);
    case _ =>
  }

  lemma TakeControl(sys: System, s: State, w: nat)
    requires Control(sys, s)
    ensures Control(sys, TakeStep(sys, s, w)) && Busy(TakeStep(sys, s, w)) == Busy(s)
  {
    hide Queued, Executing, FlagsOk, PcOk, Single;
    var n := TakeStep(sys, s, w);
    if n != s { Pop(s.queue, s.workers, w, n.workers[w]); }
  }

  lemma FinishControl(sys: System, s: State, w: nat)
    requires Control(sys, s)
    ensures Control(sys, FinishStep(s, w))
  {
    hide PcOk, Queued, Executing;
    if Active(s, w) {
      Drop(s.queue, s.workers, w);
    }
  }

  // ---- every step keeps it -------------------------------------------------------------------

  lemma StepControl(sys: System, s: State, a: Action)
    requires Control(sys, s)
    ensures Control(sys, Step(sys, s, a))
  {
    hide Single, JobsOk, LinksOk, Queued, Executing;
    match a
    case Main => MainControl(sys, s);
    case Take(w) => TakeControl(sys, s, w);
    case Fire(_, _, _) => WorkerControl(sys, s, a);
    case Tick(_, _, _) => WorkerControl(sys, s, a);
    case Deliver(_) => WorkerControl(sys, s, a);
    case EndSend(_) => WorkerControl(sys, s, a);
    case Pull(_, _) => WorkerControl(sys, s, a);
    case Finish(w) => FinishControl(sys, s, w);
    case _ =>
  }

  /** Control holds in every reachable state, whatever the handler answers. */
  lemma {:induction false} RunControl(sys: System, clock: int, threads: nat, acts: seq<Action>)
    ensures Control(sys, Run(sys, Init(sys, clock, threads), acts))
  {
    hide Control, Step, Init;
    if acts == [] {
      InitControl(sys, clock, threads);
    } else {
      RunControl(sys, clock, threads, acts[..|acts| - 1]);
      StepControl(sys, Run(sys, Init(sys, clock, threads), acts[..|acts| - 1]), acts[|acts| - 1]);
    }
  }

  /**
   * In every reachable state a task has at most one queued or running instance, has its flag set
   * while it has one, and the main thread's second assertion (the task about to be switched is
   * done) has not failed.
   */
  lemma AtMostOneInstance(sys: System, clock: int, threads: nat, acts: seq<Action>, t: Task)
    ensures var s := Run(sys, Init(sys, clock, threads), acts);
      && Single(s.queue, s.workers) && s.pc != Failed(NotDone)
      && (t in Busy(s) ==> t in s.flags && t !in Held(s.pc, s.done))
      && (t in s.flags ==> t in Busy(s) || t in Held(s.pc, s.done))
  {
    hide Queued, Executing, Single, Run, Init, JobsOk, LinksOk;
    RunControl(sys, clock, threads, acts);
    var s := Run(sys, Init(sys, clock, threads), acts);
    MarkedHeld(s.pc, s.done);
  }

  lemma MarkedHeld(pc: Pc, done: Groups<seq<Task>>)
    ensures Elems(Marked(pc, done)) <= Elems(Held(pc, done))
  {
  }
}
