/**
 * The scheduler's state machine uses its workers as the thread pool lets it: each of its steps is
 * one that ThreadPool proves of the pool, a push at the back of the queue, a take from its front
 * or the end of a running job.
 */
module SchedulerPool {
  import opened Scheduling
  import opened SchedulerControl
  import opened SchedulerTiming
  import ThreadPool

  function JobOf(x: Worker): multiset<Job> { if x.On? then multiset{x.job} else multiset{} }

  function RunningJobs(workers: seq<Worker>): multiset<Job> {
    if workers == [] then multiset{} else JobOf(workers[0]) + RunningJobs(workers[1..])
  }

  lemma {:induction false} RunningJobsUpdate(workers: seq<Worker>, w: nat, x: Worker)
    requires w < |workers|
    ensures RunningJobs(workers[w := x]) + JobOf(workers[w]) == RunningJobs(workers) + JobOf(x)
  {
    hide JobOf;
    if w == 0 {
      assert workers[0 := x][1..] == workers[1..];
    } else {
      assert workers[w := x][1..] == workers[1..][w - 1 := x] && workers[w := x][0] == workers[0];
      RunningJobsUpdate(workers[1..], w - 1, x);
      ThreadPool.Shift(JobOf(workers[0]), RunningJobs(workers[1..]), RunningJobs(workers[1..][w - 1 := x]), JobOf(workers[w]), JobOf(x));
    }
  }

  /** What the scheduler sees of its pool. */
  function View(s: State): ThreadPool.Service<Job> { ThreadPool.Service(s.queue, RunningJobs(s.workers)) }

  lemma TakeServes(sys: System, s: State, w: nat)
    ensures ThreadPool.Serves(View(s), View(TakeStep(sys, s, w)))
    ensures w < |s.workers| && s.workers[w].Off? && s.queue != [] ==>
      View(TakeStep(sys, s, w)) == ThreadPool.Service(s.queue[1..], View(s).running + multiset{s.queue[0]})
  {
    hide RunningJobs;
    var n := TakeStep(sys, s, w);
    if w < |s.workers| && s.workers[w].Off? && s.queue != [] {
      RunningJobsUpdate(s.workers, w, n.workers[w]);
      assert RunningJobs(n.workers) + multiset{} == RunningJobs(n.workers);
      assert View(n) == ThreadPool.Service(s.queue[1..], RunningJobs(s.workers) + multiset{s.queue[0]});
    }
  }

  lemma FinishServes(s: State, w: nat)
    ensures ThreadPool.Serves(View(s), View(FinishStep(s, w)))
  {
    hide RunningJobs;
    var n := FinishStep(s, w);
    if n.workers != s.workers {
      var j := s.workers[w].job;
      RunningJobsUpdate(s.workers, w, Off);
      assert RunningJobs(s.workers) + multiset{} == RunningJobs(s.workers);
      assert RunningJobs(s.workers) == RunningJobs(n.workers) + multiset{j};
      assert View(n) == View(s).(running := RunningJobs(s.workers) - multiset{j});
    }
  }

  /** Inside an instance nothing of the pool changes. */
  lemma {:induction false} SameJobs(ws: seq<Worker>, vs: seq<Worker>)
    requires |ws| == |vs| && forall w :: 0 <= w < |ws| ==> JobOf(ws[w]) == JobOf(vs[w])
    ensures RunningJobs(ws) == RunningJobs(vs)
  {
    if ws != [] { SameJobs(ws[1..], vs[1..]); }
  }

  lemma MainServes(sys: System, s: State)
    ensures ThreadPool.Serves(View(s), View(MainStep(sys, s)))
  {
    hide RunningJobs, Groups.Get, Groups.Set, OnSwitch, Due;
    var n := MainStep(sys, s);
    assert n.workers == s.workers;
    if n.queue != s.queue {
      ThreadPool.ServesPush(View(s), n.queue[|s.queue|]);
      assert View(n) == View(s).(queue := s.queue + [n.queue[|s.queue|]]);
    }
  }

  /** Every step of the scheduler is one that the pool's service allows. */
  lemma StepServes(sys: System, s: State, a: Action)
    ensures ThreadPool.Serves(View(s), View(Step(sys, s, a)))
  {
    hide RunningJobs, ThreadPool.Serves, MainStep, TakeStep, FinishStep, FireStep, TickStep, DeliverStep, EndSendStep, PullStep;
    ThreadPool.ServesSame(View(s));
    if a.Main? {
      MainServes(sys, s);
    } else if a.Take? {
      TakeServes(sys, s, a.w);
    } else if a.Finish? {
      FinishServes(s, a.w);
    } else if ByWorker(a) {
      InnerJobs(sys, s, a);
      SameJobs(Step(sys, s, a).workers, s.workers);
    }
  }
}
