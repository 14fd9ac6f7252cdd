/**
 * An aborted call that leaves tasks behind, as a run: two fast tasks, of which only the first has
 * finished when the second cycle comes, with the default timeout handler.
 */
module SchedulerAbort {
  import opened Scheduling
  import opened SchedulerEvents
  import opened SchedulerCalls

  /** n is reached from the initial state by a run in which the handler never goes on. */
  ghost predicate ReachedBy(n: State, acts: seq<Action>) {
    Run(TwoTasks(), Start(), acts) == n && NeverGoesOn(acts)
  }

  lemma Then(n: State, acts: seq<Action>, a: Action)
    requires ReachedBy(n, acts) && a != TimedOut(true)
    ensures ReachedBy(Step(TwoTasks(), n, a), acts + [a])
  {
    hide Step, TwoTasks, Start;
    assert (acts + [a])[..|acts|] == acts;
  }

  function TwoTasks(): System { System(Groups(2, 0, 0), []) }

  function Early(): Task { Task(Fast, 0) }

  function Late(): Task { Task(Fast, 1) }

  /** One worker; only the fast group is due in the cycles 1 and 2. */
  function Start(): State { Init(TwoTasks(), 1, 1) }

  lemma Checks(s: State, acts: seq<Action>) returns (n: State, more: seq<Action>)
    requires ReachedBy(s, acts) && s == Start()
    ensures ReachedBy(n, more) && n == s.(clock := 2, pc := Switching(1, Fast, 0), done := Groups([Early(), Late()], [], []))
  {
    hide ReachedBy;
    Then(s, acts, Call);
    more, n := acts + [Call], Step(TwoTasks(), s, Call);
    assert n == s.(clock := 2, pc := Entering(1, Fast));
    Then(n, more, Main);
    more, n := more + [Main], Step(TwoTasks(), n, Main);
    assert n == s.(clock := 2, pc := Checking(1, Fast, 0));
    Then(n, more, Main);
    more, n := more + [Main], Step(TwoTasks(), n, Main);
    assert [] + [Early()] == [Early()] && [Early()] + [Late()] == [Early(), Late()];
    assert n == s.(clock := 2, pc := Checking(1, Fast, 1), done := Groups([Early()], [], []));
    Then(n, more, Main);
    more, n := more + [Main], Step(TwoTasks(), n, Main);
    assert n == s.(clock := 2, pc := Checking(1, Fast, 2), done := Groups([Early(), Late()], [], []));
    Then(n, more, Main);
    more, n := more + [Main], Step(TwoTasks(), n, Main);
  }

  lemma Switches(s: State, acts: seq<Action>) returns (n: State, more: seq<Action>)
    requires ReachedBy(s, acts) && s.pc == Switching(1, Fast, 0) && s.done == Groups([Early(), Late()], [], []) && s.flags == {} && s.links == []
    ensures ReachedBy(n, more) && n == s.(pc := Dispatching(1, Fast, 0), flags := {Early(), Late()}, log := n.log)
  {
    hide ReachedBy;
    Then(s, acts, Main);
    more, n := acts + [Main], Step(TwoTasks(), s, Main);
    assert n == s.(pc := Ticking(1, Fast, 0, 0), flags := {Early()}, log := n.log);
    Then(n, more, Main);
    more, n := more + [Main], Step(TwoTasks(), n, Main);
    assert n == s.(pc := Switching(1, Fast, 1), flags := {Early()}, log := n.log);
    Then(n, more, Main);
    more, n := more + [Main], Step(TwoTasks(), n, Main);
    assert n == s.(pc := Ticking(1, Fast, 1, 0), flags := {Early(), Late()}, log := n.log);
    Then(n, more, Main);
    more, n := more + [Main], Step(TwoTasks(), n, Main);
    assert n == s.(pc := Switching(1, Fast, 2), flags := {Early(), Late()}, log := n.log);
    Then(n, more, Main);
    more, n := more + [Main], Step(TwoTasks(), n, Main);
  }

  lemma Dispatches(s: State, acts: seq<Action>) returns (n: State, more: seq<Action>)
    requires ReachedBy(s, acts) && s.pc == Dispatching(1, Fast, 0) && s.done == Groups([Early(), Late()], [], []) && s.queue == []
    ensures ReachedBy(n, more)
    ensures n == s.(pc := Idle, done := Groups([], [], []), queue := [Job(Early(), 1), Job(Late(), 1)], log := n.log)
  {
    hide ReachedBy;
    Then(s, acts, Main);
    more, n := acts + [Main], Step(TwoTasks(), s, Main);
    assert n == s.(pc := Dispatching(1, Fast, 1), queue := [Job(Early(), 1)], log := n.log);
    Then(n, more, Main);
    more, n := more + [Main], Step(TwoTasks(), n, Main);
    assert n == s.(pc := Dispatching(1, Fast, 2), queue := [Job(Early(), 1), Job(Late(), 1)], log := n.log);
    Then(n, more, Main);
    more, n := more + [Main], Step(TwoTasks(), n, Main);
    assert n == s.(pc := Entering(1, Medium), done := Groups([], [], []), queue := [Job(Early(), 1), Job(Late(), 1)], log := n.log);
    Then(n, more, Main);
    more, n := more + [Main], Step(TwoTasks(), n, Main);
    assert n == s.(pc := Entering(1, Slow), done := Groups([], [], []), queue := [Job(Early(), 1), Job(Late(), 1)], log := n.log);
    Then(n, more, Main);
    more, n := more + [Main], Step(TwoTasks(), n, Main);
  }

  /** The worker runs the first task; the second still waits when its group is due again. */
  lemma Aborted(s: State, acts: seq<Action>) returns (n: State, more: seq<Action>)
    requires ReachedBy(s, acts) && s.pc == Idle && s.clock == 2 && s.done == Groups([], [], []) && s.flags == {Early(), Late()}
    requires s.queue == [Job(Early(), 1), Job(Late(), 1)] && s.workers == [Off]
    ensures ReachedBy(n, more) && n.pc == Idle && n.clock == 3 && n.done == Groups([Early()], [], [])
  {
    hide ReachedBy;
    Then(s, acts, Take(0));
    more, n := acts + [Take(0)], Step(TwoTasks(), s, Take(0));
    assert s.queue[1..] == [Job(Late(), 1)] && TwoTasks().TickedBy(Early()) == {};
    assert [Off][0 := On(Job(Early(), 1), {}, Quiet)] == [On(Job(Early(), 1), {}, Quiet)];
    assert n == s.(queue := [Job(Late(), 1)], workers := [On(Job(Early(), 1), {}, Quiet)]);
    Then(n, more, Finish(0));
    more, n := more + [Finish(0)], Step(TwoTasks(), n, Finish(0));
    assert [On(Job(Early(), 1), {}, Quiet)][0 := Off] == [Off];
    assert n == s.(queue := [Job(Late(), 1)], workers := [Off], flags := {Late()});
    var m := n;
    Then(n, more, Call);
    more, n := more + [Call], Step(TwoTasks(), n, Call);
    assert n == m.(clock := 3, pc := Entering(2, Fast), calm := false);
    Then(n, more, Main);
    more, n := more + [Main], Step(TwoTasks(), n, Main);
    assert n == m.(clock := 3, pc := Checking(2, Fast, 0), calm := false);
    Then(n, more, Main);
    more, n := more + [Main], Step(TwoTasks(), n, Main);
    assert [] + [Early()] == [Early()];
    assert n == m.(clock := 3, pc := Checking(2, Fast, 1), calm := false, done := Groups([Early()], [], []));
    Then(n, more, Main);
    more, n := more + [Main], Step(TwoTasks(), n, Main);
    assert n == m.(clock := 3, pc := Asking(2, Fast, 1), calm := false, done := Groups([Early()], [], []));
    Then(n, more, TimedOut(false));
    more, n := more + [TimedOut(false)], Step(TwoTasks(), n, TimedOut(false));
  }

  /**
   * With the default handler a run leaves the fast group with a task in done_tasks, and the next
   * call of work() fails its assertion.
   */
  lemma AbortRun() returns (acts: seq<Action>)
    ensures NeverGoesOn(acts) && Stuck(Run(TwoTasks(), Start(), acts), Fast)
    ensures Run(TwoTasks(), Start(), acts + [Call] + [Main]).pc == Failed(LeftOver)
  {
    hide Run;
    var s := Start();
    acts := [];
    assert ReachedBy(s, []) by { NoSteps(); }
    s, acts := Checks(s, acts);
    s, acts := Switches(s, acts);
    s, acts := Dispatches(s, acts);
    s, acts := Aborted(s, acts);
    Then(s, acts, Call);
    Then(Step(TwoTasks(), s, Call), acts + [Call], Main);
  }

  lemma NoSteps()
    ensures ReachedBy(Start(), [])
  {
  }
}
