/**
 * parallel_scheduler: worker threads, a task queue under a mutex, and a condition variable.  Each
 * step is one critical section or one notification.  Notifications come after the mutex has been
 * released, wait() may return without any, and a woken worker looks at the queue again.
 */
module ThreadPool {
  /** Ready: at the top of its loop, or woken, about to look at the queue with the mutex held. */
  datatype Thread<T> = Ready | Sleeping | Running(task: T) | Exited

  /**
   * notifies: add_task calls that have pushed and not yet called notify_one.
   * alarms: stop calls that have cleared doWork and not yet called notify_all.
   * submitted, started, finished are history.
   */
  datatype Pool<T> = Pool(
    threads: seq<Thread<T>>, queue: seq<T>, doWork: bool, notifies: nat, alarms: nat,
    submitted: seq<T>, started: seq<T>, finished: multiset<T>)

  function Start<T>(n: nat): Pool<T> { Pool(seq(n, _ => Ready), [], true, 0, 0, [], [], multiset{}) }

  datatype Action<T> =
    | Push(task: T)                             // add_task, under the mutex
    | NotifyOne(w: nat)                         // wakes thread w if any thread sleeps
    | Look(w: nat)                              // a worker's critical section
    | Finish(w: nat)
    | Spurious(w: nat)
    | Stop
    | NotifyAll

  predicate AnySleeps<T>(ts: seq<Thread<T>>) { exists i :: 0 <= i < |ts| && ts[i].Sleeping? }

  function WakeAll<T>(ts: seq<Thread<T>>): seq<Thread<T>> {
    seq(|ts|, i requires 0 <= i < |ts| => if ts[i].Sleeping? then Ready else ts[i])
  }

  function SetThread<T>(p: Pool<T>, w: nat, x: Thread<T>): Pool<T>
    requires w < |p.threads|
  {
    p.(threads := p.threads[w := x])
  }

  /** while (queue empty && do_work) wait; if (!do_work) return; take the front of the queue. */
  function LookStep<T>(p: Pool<T>, w: nat): Pool<T> {
    if w < |p.threads| && p.threads[w].Ready? then
      if !p.doWork then SetThread(p, w, Exited)
      else if p.queue == [] then SetThread(p, w, Sleeping)
      else SetThread(p, w, Running(p.queue[0])).(queue := p.queue[1..], started := p.started + [p.queue[0]])
    else p
  }

  function NotifyOneStep<T>(p: Pool<T>, w: nat): Pool<T> {
    if p.notifies == 0 then p
    else if !AnySleeps(p.threads) then p.(notifies := p.notifies - 1)
    else if w < |p.threads| && p.threads[w].Sleeping? then SetThread(p, w, Ready).(notifies := p.notifies - 1)
    else p
  }

  function Step<T>(p: Pool<T>, a: Action<T>): Pool<T> {
    match a
    case Push(x) => p.(queue := p.queue + [x], submitted := p.submitted + [x], notifies := p.notifies + 1)
    case NotifyOne(w) => NotifyOneStep(p, w)
    case Look(w) => LookStep(p, w)
    case Finish(w) =>
      if w < |p.threads| && p.threads[w].Running? then
        SetThread(p, w, Ready).(finished := p.finished + multiset{p.threads[w].task})
      else p
    case Spurious(w) => if w < |p.threads| && p.threads[w].Sleeping? then SetThread(p, w, Ready) else p
    case Stop => p.(doWork := false, alarms := p.alarms + 1)
    case NotifyAll => if p.alarms > 0 then p.(threads := WakeAll(p.threads), alarms := p.alarms - 1) else p
  }

  function Run<T>(p: Pool<T>, acts: seq<Action<T>>): Pool<T> {
    if acts == [] then p else Step(Run(p, acts[..|acts| - 1]), acts[|acts| - 1])
  }

  // ---- counting threads ----------------------------------------------------------------------

  function ReadyCount<T>(ts: seq<Thread<T>>): nat {
    if ts == [] then 0 else (if ts[0].Ready? then 1 else 0) + ReadyCount(ts[1..])
  }

  lemma {:induction false} ReadyUpdate<T>(ts: seq<Thread<T>>, w: nat, x: Thread<T>)
    requires w < |ts|
    ensures ReadyCount(ts[w := x]) == ReadyCount(ts) - (if ts[w].Ready? then 1 else 0) + (if x.Ready? then 1 else 0)
  {
    if w == 0 {
      assert ts[0 := x][1..] == ts[1..];
    } else {
      assert ts[w := x][1..] == ts[1..][w - 1 := x];
      ReadyUpdate(ts[1..], w - 1, x);
    }
  }

  lemma {:induction false} NoneReady<T>(ts: seq<Thread<T>>)
    requires forall i :: 0 <= i < |ts| ==> !ts[i].Ready?
    ensures ReadyCount(ts) == 0
  {
    if ts != [] { NoneReady(ts[1..]); }
  }

  function TaskOf<T>(x: Thread<T>): multiset<T> { if x.Running? then multiset{x.task} else multiset{} }

  function RunningTasks<T>(ts: seq<Thread<T>>): multiset<T> {
    if ts == [] then multiset{} else TaskOf(ts[0]) + RunningTasks(ts[1..])
  }

  lemma Shift<T>(a: multiset<T>, r: multiset<T>, n: multiset<T>, t: multiset<T>, x: multiset<T>)
    requires n + t == r + x
    ensures (a + n) + t == (a + r) + x
  {
    assert (a + n) + t == a + (n + t) && (a + r) + x == a + (r + x);
  }

  /** A change between states in which the thread runs nothing. */
  lemma RunningKept<T>(ts: seq<Thread<T>>, w: nat, x: Thread<T>)
    requires w < |ts| && !ts[w].Running? && !x.Running?
    ensures RunningTasks(ts[w := x]) == RunningTasks(ts)
  {
    hide RunningTasks;
    RunningUpdate(ts, w, x);
    assert RunningTasks(ts) + multiset{} == RunningTasks(ts) && RunningTasks(ts[w := x]) + multiset{} == RunningTasks(ts[w := x]);
  }

  lemma {:induction false} RunningUpdate<T>(ts: seq<Thread<T>>, w: nat, x: Thread<T>)
    requires w < |ts|
    ensures RunningTasks(ts[w := x]) + TaskOf(ts[w]) == RunningTasks(ts) + TaskOf(x)
  {
    if w == 0 {
      assert ts[0 := x][1..] == ts[1..];
    } else {
      assert ts[w := x][1..] == ts[1..][w - 1 := x];
      RunningUpdate(ts[1..], w - 1, x);
      Shift(TaskOf(ts[0]), RunningTasks(ts[1..]), RunningTasks(ts[1..][w - 1 := x]), TaskOf(ts[w]), TaskOf(x));
    }
  }

  lemma {:induction false} RunningWake<T>(ts: seq<Thread<T>>)
    ensures RunningTasks(WakeAll(ts)) == RunningTasks(ts)
  {
    if ts != [] {
      assert WakeAll(ts)[1..] == WakeAll(ts[1..]);
      RunningWake(ts[1..]);
    }
  }

  // ---- the invariant -------------------------------------------------------------------------

  ghost predicate Inv<T>(p: Pool<T>) {
    // no wake-up is lost
    && (p.doWork && AnySleeps(p.threads) ==> |p.queue| <= ReadyCount(p.threads) + p.notifies)
    && (!p.doWork && AnySleeps(p.threads) ==> p.alarms > 0)
    && (p.doWork ==> p.alarms == 0 && forall i :: 0 <= i < |p.threads| ==> !p.threads[i].Exited?)
    // every task is started once, in the order of submission, and finished once
    && p.submitted == p.started + p.queue
    && multiset(p.started) == p.finished + RunningTasks(p.threads)
  }

  lemma StartInv<T>(n: nat)
    ensures Inv(Start<T>(n))
  {
    NothingRuns(Start<T>(n).threads);
  }

  lemma {:induction false} NothingRuns<T>(ts: seq<Thread<T>>)
    requires forall i :: 0 <= i < |ts| ==> ts[i].Ready?
    ensures RunningTasks(ts) == multiset{}
  {
    if ts != [] { NothingRuns(ts[1..]); }
  }

  lemma LookInv<T>(p: Pool<T>, w: nat)
    requires Inv(p) && w < |p.threads| && p.threads[w].Ready?
    ensures Inv(LookStep(p, w))
  {
    hide ReadyCount, RunningTasks;
    var n := LookStep(p, w);
    ReadyUpdate(p.threads, w, n.threads[w]);
    if n.threads[w].Running? {
      RunningUpdate(p.threads, w, n.threads[w]);
      assert p.queue == [p.queue[0]] + p.queue[1..];
      assert RunningTasks(n.threads) == RunningTasks(p.threads) + multiset{p.queue[0]} by {
        assert RunningTasks(n.threads) + multiset{} == RunningTasks(n.threads);
      }
    } else {
      RunningKept(p.threads, w, n.threads[w]);
    }
  }

  lemma WakeInv<T>(p: Pool<T>, w: nat, spare: nat)
    requires Inv(p) && w < |p.threads| && p.threads[w].Sleeping? && spare <= p.notifies <= spare + 1
    ensures Inv(SetThread(p, w, Ready).(notifies := spare))
  {
    hide ReadyCount, RunningTasks;
    ReadyUpdate(p.threads, w, Ready);
    RunningKept(p.threads, w, Ready);
  }

  lemma FinishInv<T>(p: Pool<T>, w: nat)
    requires Inv(p) && w < |p.threads| && p.threads[w].Running?
    ensures Inv(Step(p, Finish(w)))
  {
    hide ReadyCount, RunningTasks;
    ReadyUpdate(p.threads, w, Ready);
    RunningUpdate(p.threads, w, Ready);
    assert RunningTasks(p.threads) == RunningTasks(p.threads[w := Ready]) + multiset{p.threads[w].task};
  }

  lemma StepInv<T>(p: Pool<T>, a: Action<T>)
    requires Inv(p)
    ensures Inv(Step(p, a))
  {
    hide ReadyCount, RunningTasks, LookStep;
    match a
    case Push(x) => assert p.submitted + [x] == p.started + (p.queue + [x]);
    case NotifyOne(w) =>
      if p.notifies > 0 && w < |p.threads| && p.threads[w].Sleeping? { WakeInv(p, w, p.notifies - 1); }
    case Look(w) => if w < |p.threads| && p.threads[w].Ready? { LookInv(p, w); } else { LookIdle(p, w); }
    case Finish(w) => if w < |p.threads| && p.threads[w].Running? { FinishInv(p, w); }
    case Spurious(w) => if w < |p.threads| && p.threads[w].Sleeping? { WakeInv(p, w, p.notifies); }
    case Stop =>
    case NotifyAll => RunningWake(p.threads);
  }

  lemma LookIdle<T>(p: Pool<T>, w: nat)
    requires !(w < |p.threads| && p.threads[w].Ready?)
    ensures LookStep(p, w) == p
  {
  }

  /** The invariant holds in every state that n threads reach, in every order of actions. */
  lemma {:induction false} RunInv<T>(n: nat, acts: seq<Action<T>>)
    ensures Inv(Run(Start<T>(n), acts)) && |Run(Start<T>(n), acts).threads| == n
  {
    hide Inv, Step;
    if acts == [] {
      StartInv<T>(n);
    } else {
      RunInv(n, acts[..|acts| - 1]);
      var p := Run(Start<T>(n), acts[..|acts| - 1]);
      StepInv(p, acts[|acts| - 1]);
      SameThreads(p, acts[|acts| - 1]);
    }
  }

  lemma SameThreads<T>(p: Pool<T>, a: Action<T>)
    ensures |Step(p, a).threads| == |p.threads|
  {
  }

  /**
   * No wake-up is lost: while the pool works and a worker sleeps, there are at least as many
   * workers about to look at the queue and notifications under way as there are tasks waiting.
   */
  lemma NoLostWakeUp<T>(n: nat, acts: seq<Action<T>>)
    ensures var p := Run(Start<T>(n), acts);
      p.doWork && AnySleeps(p.threads) ==> |p.queue| <= ReadyCount(p.threads) + p.notifies
  {
    hide Run, Start, ReadyCount, RunningTasks, AnySleeps;
    RunInv(n, acts);
  }

  /** Tasks are started in the order of submission, each once, and each started one finishes once. */
  lemma ExactlyOnce<T>(n: nat, acts: seq<Action<T>>)
    ensures var p := Run(Start<T>(n), acts);
      && p.submitted == Pushed(acts) == p.started + p.queue
      && multiset(p.started) == p.finished + RunningTasks(p.threads)
  {
    hide Run, Start, ReadyCount, RunningTasks, AnySleeps, Pushed;
    RunInv(n, acts);
    SubmittedAsPushed(Start<T>(n), acts);
    NothingSubmitted<T>(n);
  }

  /** The tasks that the calls of add_task in a run have handed over, in their order. */
  function Pushed<T>(acts: seq<Action<T>>): seq<T> {
    if acts == [] then []
    else Pushed(acts[..|acts| - 1]) + if acts[|acts| - 1].Push? then [acts[|acts| - 1].task] else []
  }

  /** What has been submitted is what add_task was called with. */
  lemma {:induction false} SubmittedAsPushed<T>(p: Pool<T>, acts: seq<Action<T>>)
    ensures Run(p, acts).submitted == p.submitted + Pushed(acts)
  {
    if acts != [] { SubmittedAsPushed(p, acts[..|acts| - 1]); }
  }

  lemma NothingSubmitted<T>(n: nat)
    ensures Start<T>(n).submitted == []
  {
  }

  // ---- a waiting task can always make progress -----------------------------------------------

  /** An action of a worker, or a notification, that changes the state. */
  predicate Moves<T>(p: Pool<T>, a: Action<T>) {
    match a
    case NotifyOne(w) => p.notifies > 0 && w < |p.threads| && p.threads[w].Sleeping?
    case Look(w) => w < |p.threads| && p.threads[w].Ready?
    case Finish(w) => w < |p.threads| && p.threads[w].Running?
    case NotifyAll => p.alarms > 0
    case _ => false
  }

  /** While the pool works and a task waits, some worker moves or is about to be woken. */
  lemma NeverStuck<T>(n: nat, acts: seq<Action<T>>) returns (a: Action<T>)
    requires n > 0
    requires var p := Run(Start<T>(n), acts); p.doWork && p.queue != []
    ensures Moves(Run(Start<T>(n), acts), a)
  {
    hide Run, Start, ReadyCount, RunningTasks;
    RunInv(n, acts);
    var p := Run(Start<T>(n), acts);
    if w: nat :| w < |p.threads| && p.threads[w].Ready? {
      a := Look(w);
    } else if w: nat :| w < |p.threads| && p.threads[w].Running? {
      a := Finish(w);
    } else {
      NoneReady(p.threads);
      assert p.threads[0].Sleeping?;
      a := NotifyOne(0);
    }
  }

  // ---- shutdown ------------------------------------------------------------------------------

  function Weight<T>(x: Thread<T>): nat {
    match x
    case Exited => 0
    case Ready => 1
    case _ => 2
  }

  /** How many steps the threads are away from having returned, at most. */
  function Left<T>(ts: seq<Thread<T>>): nat {
    if ts == [] then 0 else Weight(ts[0]) + Left(ts[1..])
  }

  lemma {:induction false} LeftUpdate<T>(ts: seq<Thread<T>>, w: nat, x: Thread<T>)
    requires w < |ts|
    ensures Left(ts[w := x]) == Left(ts) - Weight(ts[w]) + Weight(x)
  {
    if w == 0 {
      assert ts[0 := x][1..] == ts[1..];
    } else {
      assert ts[w := x][1..] == ts[1..][w - 1 := x];
      LeftUpdate(ts[1..], w - 1, x);
    }
  }

  lemma {:induction false} LeftWake<T>(ts: seq<Thread<T>>)
    ensures Left(WakeAll(ts)) <= Left(ts) && (AnySleeps(ts) ==> Left(WakeAll(ts)) < Left(ts))
  {
    if ts != [] {
      assert WakeAll(ts)[1..] == WakeAll(ts[1..]);
      LeftWake(ts[1..]);
      if AnySleeps(ts) && !ts[0].Sleeping? {
        var i :| 0 <= i < |ts| && ts[i].Sleeping?;
        assert ts[1..][i - 1].Sleeping?;
      }
    }
  }

  lemma {:induction false} LeftBounds<T>(ts: seq<Thread<T>>)
    ensures Left(ts) <= 2 * |ts|
    ensures Left(ts) == 0 <==> forall i :: 0 <= i < |ts| ==> ts[i].Exited?
  {
    if ts != [] {
      LeftBounds(ts[1..]);
      if forall i :: 0 <= i < |ts[1..]| ==> ts[1..][i].Exited? {
        assert forall i :: 0 < i < |ts| ==> ts[i] == ts[1..][i - 1];
      } else {
        var i :| 0 <= i < |ts[1..]| && !ts[1..][i].Exited?;
        assert !ts[i + 1].Exited?;
      }
    }
  }

  /** After stop() no action takes the threads further from their end, or starts a task. */
  lemma ShutdownStep<T>(p: Pool<T>, a: Action<T>)
    requires !p.doWork
    ensures var n := Step(p, a); !n.doWork && n.started == p.started && Left(n.threads) <= Left(p.threads)
    ensures Moves(p, a) && (a.NotifyAll? ==> AnySleeps(p.threads)) ==> Left(Step(p, a).threads) < Left(p.threads)
    ensures !AnySleeps(p.threads) ==> !AnySleeps(Step(p, a).threads)
  {
    hide Left;
    match a
    case NotifyAll => LeftWake(p.threads);
    case NotifyOne(w) => if w < |p.threads| { LeftUpdate(p.threads, w, Step(p, a).threads[w]); }
    case Look(w) => if w < |p.threads| { LeftUpdate(p.threads, w, Step(p, a).threads[w]); }
    case Finish(w) => if w < |p.threads| { LeftUpdate(p.threads, w, Step(p, a).threads[w]); }
    case Spurious(w) => if w < |p.threads| { LeftUpdate(p.threads, w, Step(p, a).threads[w]); }
    case _ =>
  }

  /** How many actions of the run bring the threads nearer to their end. */
  function Useful<T>(p: Pool<T>, acts: seq<Action<T>>): nat {
    if acts == [] then 0
    else
      var before := Run(p, acts[..|acts| - 1]);
      Useful(p, acts[..|acts| - 1]) + (if Left(Step(before, acts[|acts| - 1]).threads) < Left(before.threads) then 1 else 0)
  }

  /**
   * From stop() on: the tasks still queued are never started, a worker that does not sleep never
   * sleeps again, and at most twice as many steps as there are threads separate the pool from its
   * end.
   */
  lemma {:induction false} Shutdown<T>(p: Pool<T>, acts: seq<Action<T>>)
    requires !p.doWork
    ensures var n := Run(p, acts);
      && !n.doWork && n.started == p.started && (!AnySleeps(p.threads) ==> !AnySleeps(n.threads))
      && Useful(p, acts) + Left(n.threads) <= Left(p.threads) <= 2 * |p.threads|
  {
    hide Step, Left, AnySleeps;
    LeftBounds(p.threads);
    if acts != [] {
      Shutdown(p, acts[..|acts| - 1]);
      ShutdownStep(Run(p, acts[..|acts| - 1]), acts[|acts| - 1]);
    }
  }

  /**
   * Until all threads have returned, a thread can take a step towards its end, or stop() has
   * still to notify sleepers: with running tasks ending, every join completes.
   */
  lemma JoinsComplete<T>(n: nat, acts: seq<Action<T>>) returns (a: Action<T>)
    requires var p := Run(Start<T>(n), acts); !p.doWork && exists i :: 0 <= i < |p.threads| && !p.threads[i].Exited?
    ensures var p := Run(Start<T>(n), acts); Moves(p, a) && Left(Step(p, a).threads) < Left(p.threads)
  {
    hide Run, Start, ReadyCount, RunningTasks, Left;
    RunInv(n, acts);
    var p := Run(Start<T>(n), acts);
    var i: nat :| i < |p.threads| && !p.threads[i].Exited?;
    a := match p.threads[i] case Ready => Look(i) case Running(_) => Finish(i) case _ => NotifyAll;
    ShutdownStep(p, a);
  }

  // ---- what the pool is for those who use it -------------------------------------------------

  /** A queue of tasks and the tasks being run. */
  datatype Service<T> = Service(queue: seq<T>, running: multiset<T>)

  function View<T>(p: Pool<T>): Service<T> { Service(p.queue, RunningTasks(p.threads)) }

  /** Push at the back, take from the front, end of a running task. */
  ghost predicate Serves<T(!new)>(v: Service<T>, n: Service<T>) {
    || n == v
    || (exists x :: n == v.(queue := v.queue + [x]))
    || (v.queue != [] && n == Service(v.queue[1..], v.running + multiset{v.queue[0]}))
    || (exists x :: x in v.running && n == v.(running := v.running - multiset{x}))
  }

  /** Whatever the threads do, the pool behaves as such a service. */
  lemma PoolServes<T(!new)>(p: Pool<T>, a: Action<T>)
    ensures Serves(View(p), View(Step(p, a)))
  {
    hide RunningTasks, Serves;
    match a
    case Push(x) => ServesPush(View(p), x);
    case NotifyOne(w) => if w < |p.threads| && p.threads[w].Sleeping? { RunningKept(p.threads, w, Ready); } ServesSame(View(p));
    case Spurious(w) => if w < |p.threads| && p.threads[w].Sleeping? { RunningKept(p.threads, w, Ready); } ServesSame(View(p));
    case Stop => ServesSame(View(p));
    case NotifyAll => RunningWake(p.threads); ServesSame(View(p));
    case Look(w) => LookServes(p, w);
    case Finish(w) =>
      ServesSame(View(p));
      if w < |p.threads| && p.threads[w].Running? { FinishServes(p, w); }
  }

  lemma ServesSame<T(!new)>(v: Service<T>)
    ensures Serves(v, v)
  {
  }

  lemma ServesPush<T(!new)>(v: Service<T>, x: T)
    ensures Serves(v, v.(queue := v.queue + [x]))
  {
  }

  lemma LookServes<T(!new)>(p: Pool<T>, w: nat)
    ensures Serves(View(p), View(LookStep(p, w)))
  {
    hide RunningTasks;
    if w < |p.threads| && p.threads[w].Ready? {
      var n := LookStep(p, w);
      if n.threads[w].Running? {
        RunningUpdate(p.threads, w, n.threads[w]);
        assert RunningTasks(n.threads) + multiset{} == RunningTasks(n.threads);
        assert View(n) == Service(p.queue[1..], RunningTasks(p.threads) + multiset{p.queue[0]});
      } else {
        RunningKept(p.threads, w, n.threads[w]);
      }
    }
  }

  lemma FinishServes<T(!new)>(p: Pool<T>, w: nat)
    requires w < |p.threads| && p.threads[w].Running?
    ensures Serves(View(p), View(Step(p, Finish(w))))
  {
    hide RunningTasks;
    var x := p.threads[w].task;
    RunningUpdate(p.threads, w, Ready);
    assert RunningTasks(p.threads) == RunningTasks(p.threads[w := Ready]) + multiset{x};
    assert View(Step(p, Finish(w))) == View(p).(running := RunningTasks(p.threads) - multiset{x});
  }
}
