/**
 * parallel_scheduler as a class: add_task, stop and the body of a worker's loop, with other
 * threads acting between any two critical sections.  Every critical section and notification is
 * one step of the protocol in ThreadPool.
 */
module ParallelSchedulers {
  import opened ThreadPool

  datatype Taken<T> = Task(task: T) | Slept | Returned

  /** Threads that have returned do not come back. */
  ghost predicate StillGone<T>(before: seq<Thread<T>>, now: seq<Thread<T>>) {
    |before| == |now| && forall i :: 0 <= i < |before| && before[i].Exited? ==> now[i].Exited?
  }

  lemma Gone<T>(p: Pool<T>, a: Action<T>)
    ensures StillGone(p.threads, Step(p, a).threads)
  {
  }

  lemma Bounds<T>(p: Pool<T>, a: Action<T>, ones: nat, alls: nat)
    requires p.notifies >= ones && p.alarms >= alls && (a.NotifyOne? ==> p.notifies > ones) && (a.NotifyAll? ==> p.alarms > alls)
    ensures var n := Step(p, a); n.notifies >= ones && n.alarms >= alls && p.submitted <= n.submitted && (!p.doWork ==> !n.doWork)
  {
  }

  class ParallelScheduler<T(0, ==)> {
    var threadPool: seq<Thread<T>>
    var taskQueue: seq<T>
    var doWork: bool

    /** Calls under way that have still to notify, and the history of the protocol. */
    var notifies: nat
    var alarms: nat
    var submitted: seq<T>
    var started: seq<T>
    var finished: multiset<T>
    ghost const count: nat
    ghost var acts: seq<Action<T>>

    function Now(): Pool<T>
      reads this
    {
      Pool(threadPool, taskQueue, doWork, notifies, alarms, submitted, started, finished)
    }

    /** The object is in a state that a run of the protocol reaches. */
    ghost predicate Valid()
      reads this
    {
      Now() == Run(Start<T>(count), acts) && Inv(Now()) && |threadPool| == count
    }

    constructor (threads: nat)
      ensures Valid() && count == threads && doWork && taskQueue == [] && submitted == []
    {
      var p := Start<T>(threads);
      threadPool, taskQueue, doWork, notifies, alarms := p.threads, p.queue, p.doWork, p.notifies, p.alarms;
      submitted, started, finished := p.submitted, p.started, p.finished;
      count, acts := threads, [];
      new;
      StartInv<T>(threads);
    }

    lemma Kept(before: Pool<T>, earlier: seq<Action<T>>, a: Action<T>)
      requires before == Run(Start<T>(count), earlier) && Inv(before) && |before.threads| == count
      requires Now() == Step(before, a) && acts == earlier + [a]
      ensures Valid()
    {
      hide Inv, Step;
      assert acts[..|acts| - 1] == earlier;
      StepInv(before, a);
      SameThreads(before, a);
    }

    /** Any actions of other threads, which leave our own notifications to us. */
    method Interfere(ones: nat, alls: nat)
      requires Valid() && notifies >= ones && alarms >= alls
      modifies this
      ensures Valid() && notifies >= ones && alarms >= alls && old(submitted) <= submitted && (!old(doWork) ==> !doWork)
      ensures !old(doWork) ==> started == old(started) && (!AnySleeps(old(threadPool)) ==> !AnySleeps(threadPool))
      ensures StillGone(old(threadPool), threadPool)
    {
      hide Inv, Step, Run, AnySleeps;
      var n: int := *;
      for i := 0 to if n < 0 then 0 else n
        invariant Valid() && notifies >= ones && alarms >= alls && old(submitted) <= submitted && (!old(doWork) ==> !doWork)
        invariant !old(doWork) ==> started == old(started) && (!AnySleeps(old(threadPool)) ==> !AnySleeps(threadPool))
        invariant StillGone(old(threadPool), threadPool)
      {
        var a: Action<T> := *;
        if (a.NotifyOne? ==> notifies > ones) && (a.NotifyAll? ==> alarms > alls) {
          Other(a, ones, alls);
        }
      }
    }

    method Other(a: Action<T>, ones: nat, alls: nat)
      requires Valid() && notifies >= ones && alarms >= alls
      requires (a.NotifyOne? ==> notifies > ones) && (a.NotifyAll? ==> alarms > alls)
      modifies this
      ensures Valid() && notifies >= ones && alarms >= alls && old(submitted) <= submitted && (!old(doWork) ==> !doWork)
      ensures !old(doWork) ==> started == old(started) && (!AnySleeps(old(threadPool)) ==> !AnySleeps(threadPool))
      ensures StillGone(old(threadPool), threadPool)
    {
      hide Inv, Run, Step, AnySleeps, StillGone, Left;
      ghost var before, earlier := Now(), acts;
      var p := Step(Now(), a);
      Bounds(before, a, ones, alls);
      Gone(before, a);
      if !before.doWork { ShutdownStep(before, a); }
      threadPool, taskQueue, doWork, notifies, alarms := p.threads, p.queue, p.doWork, p.notifies, p.alarms;
      submitted, started, finished, acts := p.submitted, p.started, p.finished, acts + [a];
      Kept(before, earlier, a);
    }

    /** add_task: the task is queued under the mutex, one sleeping thread is notified afterwards. */
    method AddTask(x: T)
      requires Valid()
      modifies this
      ensures Valid() && old(submitted) <= submitted && x in submitted[|old(submitted)|..]
    {
      hide Inv, Run;
      Interfere(0, 0);
      ghost var before, earlier := Now(), acts;
      taskQueue := taskQueue + [x];
      submitted, notifies, acts := submitted + [x], notifies + 1, acts + [Push(x)];
      Kept(before, earlier, Push(x));
      ghost var sent := submitted;
      Interfere(1, 0);
      assert x == sent[|sent| - 1] == submitted[|old(submitted)|..][|sent| - 1 - |old(submitted)|];
      NotifyOne();
    }

    method NotifyOne()
      requires Valid() && notifies > 0
      modifies this`threadPool, this`notifies, this`acts
      ensures Valid() && notifies == old(notifies) - 1
    {
      hide Inv, Run;
      ghost var before, earlier := Now(), acts;
      if w: nat :| w < |threadPool| && threadPool[w].Sleeping? {
        threadPool := threadPool[w := Ready];
        notifies, acts := notifies - 1, acts + [Action.NotifyOne(w)];
        Kept(before, earlier, Action.NotifyOne(w));
      } else {
        notifies, acts := notifies - 1, acts + [Action.NotifyOne(0)];
        Kept(before, earlier, Action.NotifyOne(0));
      }
    }

    /**
     * stop: from its notification on no thread sleeps, and no task is started any more.  The joins
     * follow; joined says that all of them have completed, and then every thread has returned.
     * Otherwise a join still waits, and some thread can take a step towards its end.
     */
    method Stop() returns (joined: bool)
      requires Valid()
      modifies this
      ensures Valid() && !doWork && !AnySleeps(threadPool)
      ensures !old(doWork) ==> started == old(started)
      ensures joined <==> Left(threadPool) == 0
      ensures !joined ==> exists a :: Moves(Now(), a) && Left(Step(Now(), a).threads) < Left(threadPool)
    {
      hide Inv, Run;
      Interfere(0, 0);
      ghost var before, earlier := Now(), acts;
      doWork := false;
      alarms, acts := alarms + 1, acts + [Action.Stop];
      Kept(before, earlier, Action.Stop);
      Interfere(0, 1);
      before, earlier := Now(), acts;
      threadPool := WakeAll(threadPool);
      alarms, acts := alarms - 1, acts + [NotifyAll];
      Kept(before, earlier, NotifyAll);
      joined := JoinAll();
    }

    /** The join loop of stop, up to the first thread that has not returned. */
    method JoinAll() returns (joined: bool)
      requires Valid() && !doWork && !AnySleeps(threadPool)
      modifies this
      ensures Valid() && !doWork && !AnySleeps(threadPool) && started == old(started)
      ensures joined <==> Left(threadPool) == 0
      ensures !joined ==> exists a :: Moves(Now(), a) && Left(Step(Now(), a).threads) < Left(threadPool)
    {
      hide Inv, Run, AnySleeps, Left, Step;
      for w := 0 to |threadPool|
        invariant Valid() && !doWork && !AnySleeps(threadPool) && started == old(started) && |threadPool| == |old(threadPool)|
        invariant forall i :: 0 <= i < w ==> threadPool[i].Exited?
      {
        Interfere(0, 0);
        if !threadPool[w].Exited? {
          LeftBounds(threadPool);
          ghost var a := JoinsComplete(count, acts);
          return false;
        }
      }
      LeftBounds(threadPool);
      return true;
    }

    /**
     * The critical section of a worker: it returns when the pool stops, sleeps when there is
     * nothing to do, and otherwise takes the task that has waited longest.
     */
    method Look(w: nat) returns (r: Taken<T>)
      requires Valid() && w < |threadPool| && threadPool[w].Ready?
      modifies this`threadPool, this`taskQueue, this`started, this`acts
      ensures Valid()
      ensures r.Task? <==> doWork && old(taskQueue) != []
      ensures r.Task? ==> taskQueue == old(taskQueue)[1..] && r.task == old(taskQueue)[0] && threadPool == old(threadPool)[w := Running(r.task)]
      ensures r.Slept? ==> doWork && old(taskQueue) == [] && threadPool == old(threadPool)[w := Sleeping] && taskQueue == []
      ensures r.Returned? ==> !doWork && threadPool == old(threadPool)[w := Exited] && taskQueue == old(taskQueue)
    {
      hide Inv, Run;
      ghost var before, earlier := Now(), acts;
      if taskQueue == [] && doWork {
        threadPool := threadPool[w := Sleeping];
        r := Slept;
      } else if !doWork {
        threadPool := threadPool[w := Exited];
        r := Returned;
      } else {
        r := Task(taskQueue[0]);
        threadPool, taskQueue, started := threadPool[w := Running(taskQueue[0])], taskQueue[1..], started + [taskQueue[0]];
      }
      acts := acts + [Action.Look(w)];
      Kept(before, earlier, Action.Look(w));
    }

    method NrOfWaitingTasks() returns (n: nat)
      requires Valid()
      ensures Valid() && n == |submitted| - |started|
    {
      hide Run, ReadyCount, RunningTasks, AnySleeps;
      n := |taskQueue|;
    }
  }
}
