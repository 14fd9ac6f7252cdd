/**
 * When every due task is found done, which sample a sink sees: in its cycle d that of the last
 * cycle of the source whose switch tick comes before the sink's.
 */
module SchedulerFresh {
  import opened ConnectionBuffers
  import opened Scheduling
  import opened SchedulerControl
  import opened SchedulerEvents
  import opened SchedulerHistory
  import opened SchedulerLatency
  import opened SchedulerStates
  import opened SchedulerTiming

  // ---- between the source's switch tick and its sample ---------------------------------------

  /** The source has had its switch tick on c, and its instance has not reached the buffer yet. */
  ghost predicate Awaits(sys: System, s: State, c: nat)
    requires c < |sys.conns|
  {
    var t := sys.conns[c].passive;
    || t in Queued(s.queue)
    || (exists w :: 0 <= w < |s.workers| && HasTodo(s.workers[w], c))
    || Promised(s.pc, s.done, t, c)
  }

  ghost predicate HasTodo(x: Worker, c: nat) { x.On? && c in x.todo }

  ghost predicate Promised(pc: Pc, done: Groups<seq<Task>>, t: Task, c: nat) { t in Held(pc, done) && t in Switched(pc, done, c) }

  lemma TodoRuns(sys: System, s: State, w: nat, c: nat)
    requires Control(sys, s) && c < |sys.conns| && w < |s.workers| && HasTodo(s.workers[w], c)
    ensures s.workers[w].job.task == sys.conns[c].passive && sys.conns[c].passive in Executing(s.workers)
  {
    hide FlagsOk, PcOk, Single, LinksOk;
    assert WorkerOk(sys, s.workers[w]);
  }

  /** A task that the main thread holds has no instance. */
  lemma HeldAwaits(sys: System, s: State, c: nat)
    requires Control(sys, s) && c < |sys.conns| && sys.conns[c].passive in Held(s.pc, s.done)
    ensures sys.conns[c].passive !in Queued(s.queue)
    ensures Awaits(sys, s, c) <==> sys.conns[c].passive in Switched(s.pc, s.done, c)
  {
    hide PcOk, Single, LinksOk, Queued, Executing, Held, Switched, JobsOk;
    var t := sys.conns[c].passive;
    assert t in Elems(Held(s.pc, s.done));
    if w :| 0 <= w < |s.workers| && HasTodo(s.workers[w], c) { TodoRuns(sys, s, w, c); }
  }

  lemma TickAwaits(sys: System, s: State, c: nat)
    requires Control(sys, s) && c < |sys.conns| && TickAt(sys, s, c, sys.conns[c].passive)
    ensures !Awaits(sys, s, c) && Awaits(sys, MainStep(sys, s), c)
  {
    hide Single, Queued, Executing, JobsOk, FlagsOk, Groups.Get, Groups.Set, OnSwitch, Awaits;
    var t, h, i := sys.conns[c].passive, s.done.Get(s.pc.rate), s.pc.i;
    var n := MainStep(sys, s);
    assert h[i] !in h[..i];
    assert n.done == s.done && n.pc == Ticking(s.pc.now, s.pc.rate, i, c + 1);
    assert h[..i + 1][i] == t;
    HeldAwaits(sys, s, c);
    MainControl(sys, s);
    HeldAwaits(sys, n, c);
  }

  lemma QueuedSnoc(queue: seq<Job>, j: Job)
    ensures Queued(queue + [j]) == Queued(queue) + {j.task}
  {
    var q := queue + [j];
    assert q[|queue|].task == j.task;
    forall i | 0 <= i < |queue| ensures queue[i].task in Queued(q) { assert q[i] == queue[i]; }
  }

  /** What is dispatched passes from the main thread into the queue. */
  lemma DispatchPromised(s: State, t: Task, c: nat)
    requires s.pc.Dispatching? && s.pc.i <= |s.done.Get(s.pc.rate)|
    ensures var n := DispatchStep(s, s.pc.now, s.pc.rate, s.pc.i);
      n.workers == s.workers
      && (t in Queued(n.queue) || Promised(n.pc, n.done, t, c) <==> t in Queued(s.queue) || Promised(s.pc, s.done, t, c))
  {
    hide Queued, Groups.Get, Groups.Set;
    var h, i := s.done.Get(s.pc.rate), s.pc.i;
    if i < |h| {
      assert h[i..] == [h[i]] + h[i + 1..];
      QueuedSnoc(s.queue, Job(h[i], s.pc.now));
    }
  }

  lemma DispatchAwaits(sys: System, s: State, c: nat)
    requires Control(sys, s) && c < |sys.conns| && s.pc.Dispatching?
    ensures Awaits(sys, MainStep(sys, s), c) <==> Awaits(sys, s, c)
  {
    hide Single, Executing, JobsOk, FlagsOk, LinksOk, Queued, Promised, DispatchStep, Groups.Get, InGroup, HasTodo;
    DispatchPromised(s, sys.conns[c].passive, c);
  }

  lemma TickPromised(sys: System, s: State, t: Task, c: nat)
    requires PcOk(sys, s.pc, s.done) && |s.links| == |sys.conns| && s.pc.Ticking? && c < |sys.conns| && !TickAt(sys, s, c, t)
    ensures var n := SwitchTickStep(sys, s, s.pc.now, s.pc.rate, s.pc.i, s.pc.k);
      n.queue == s.queue && n.workers == s.workers && (Promised(n.pc, n.done, t, c) <==> Promised(s.pc, s.done, t, c))
  {
    hide Groups.Get, OnSwitch, InGroup;
    var h, i := s.done.Get(s.pc.rate), s.pc.i;
    assert h[..i + 1] == h[..i] + [h[i]];
  }

  lemma SwitchPromised(sys: System, s: State, t: Task, c: nat)
    requires Control(sys, s) && s.pc.Switching?
    ensures var n := SwitchStep(s, s.pc.now, s.pc.rate, s.pc.i);
      n.queue == s.queue && n.workers == s.workers && (Promised(n.pc, n.done, t, c) <==> Promised(s.pc, s.done, t, c))
  {
    hide Single, Queued, Executing, JobsOk, FlagsOk, LinksOk, Groups.Get, InGroup;
    var h, i := s.done.Get(s.pc.rate), s.pc.i;
    if i == |h| { assert h[..i] == h && h[0..] == h; } else { MarksDone(sys, s); }
  }

  lemma CallAwaits(sys: System, s: State, t: Task, c: nat)
    requires Control(sys, s) && c < |sys.conns| && !s.pc.Dispatching? && !TickAt(sys, s, c, t)
    ensures MainStep(sys, s).queue == s.queue && MainStep(sys, s).workers == s.workers
    ensures Promised(MainStep(sys, s).pc, MainStep(sys, s).done, t, c) <==> Promised(s.pc, s.done, t, c)
  {
    hide Single, Queued, Executing, JobsOk, FlagsOk, Groups.Get, Groups.Set, InGroup, SwitchStep, SwitchTickStep, TickAt;
    if s.pc.Switching? {
      SwitchPromised(sys, s, t, c);
    } else if s.pc.Ticking? {
      TickPromised(sys, s, t, c);
    }
  }

  lemma MainAwaits(sys: System, s: State, c: nat)
    requires Control(sys, s) && c < |sys.conns|
    ensures if TickAt(sys, s, c, sys.conns[c].passive) then !Awaits(sys, s, c) && Awaits(sys, MainStep(sys, s), c)
      else Awaits(sys, MainStep(sys, s), c) <==> Awaits(sys, s, c)
  {
    hide Control, MainStep, Queued, TickAt, Promised;
    if TickAt(sys, s, c, sys.conns[c].passive) {
      TickAwaits(sys, s, c);
    } else if s.pc.Dispatching? {
      DispatchAwaits(sys, s, c);
    } else {
      CallAwaits(sys, s, sys.conns[c].passive, c);
    }
  }

  lemma TakeAwaits(sys: System, s: State, w: nat, c: nat)
    requires c < |sys.conns|
    ensures Awaits(sys, TakeStep(sys, s, w), c) <==> Awaits(sys, s, c)
  {
    hide Promised;
    var n, t := TakeStep(sys, s, w), sys.conns[c].passive;
    if n != s {
      forall v | 0 <= v < |s.workers| && HasTodo(s.workers[v], c) ensures HasTodo(n.workers[v], c) { }
      forall v | 0 <= v < |s.workers| && v != w && HasTodo(n.workers[v], c) ensures HasTodo(s.workers[v], c) { }
      assert HasTodo(n.workers[w], c) <==> s.queue[0].task == t;
      assert s.queue[0].task in Queued(s.queue);
      forall i | 0 < i < |s.queue| ensures s.queue[i].task in Queued(n.queue) { assert n.queue[i - 1] == s.queue[i]; }
      forall i | 0 <= i < |n.queue| ensures n.queue[i].task in Queued(s.queue) { assert n.queue[i] == s.queue[i + 1]; }
    }
  }

  /** The sample is taken: nothing is awaited any more. */
  lemma SampleAwaits(sys: System, s: State, w: nat, value: int, c: nat)
    requires Control(sys, s) && c < |sys.conns| && Taken(sys, s, Tick(w, c, value), c) != []
    ensures Awaits(sys, s, c) && !Awaits(sys, SampleStep(sys, s, w, c, value), c)
  {
    hide PcOk, Queued, Held, Switched;
    var n, t := SampleStep(sys, s, w, c, value), sys.conns[c].passive;
    assert HasTodo(s.workers[w], c);
    TodoRuns(sys, s, w, c);
    assert t !in Elems(Held(s.pc, s.done));
    OnlyOne(sys, s, w, c);
    forall v | 0 <= v < |n.workers| ensures !HasTodo(n.workers[v], c) {
      assert v != w ==> !Drains(s.workers[v], c);
    }
  }

  lemma SameTodo(s: State, n: State, c: nat)
    requires |s.workers| == |n.workers| && forall w :: 0 <= w < |s.workers| ==> (HasTodo(n.workers[w], c) <==> HasTodo(s.workers[w], c))
    ensures (exists w :: 0 <= w < |n.workers| && HasTodo(n.workers[w], c)) <==> (exists w :: 0 <= w < |s.workers| && HasTodo(s.workers[w], c))
  {
  }

  lemma OtherAwaits(sys: System, s: State, a: Action, c: nat)
    requires Control(sys, s) && c < |sys.conns| && sys.conns[c].kind == States && !a.Main? && !a.Take? && Taken(sys, s, a, c) == []
    requires !a.TimedOut?
    ensures Awaits(sys, Step(sys, s, a), c) <==> Awaits(sys, s, c)
  {
    hide PcOk, Queued, FlagsOk, JobsOk, Single, MainStep, HasTodo, Groups.Get;
    var n := Step(sys, s, a);
    if ByWorker(a) { WorkerFrame(sys, s, a); }
    KeepsTodo(sys, s, a, c);
    SameTodo(s, n, c);
  }

  lemma KeepsTodo(sys: System, s: State, a: Action, c: nat)
    requires LinksOk(sys, s.links) && c < |sys.conns| && sys.conns[c].kind == States && !a.Main? && !a.Take? && Taken(sys, s, a, c) == []
    ensures var n := Step(sys, s, a);
      n.queue == s.queue && |n.workers| == |s.workers| && forall w :: 0 <= w < |s.workers| ==> (HasTodo(n.workers[w], c) <==> HasTodo(s.workers[w], c))
  {
    hide Groups.Get;
  }

  // ---- which cycle's sample each buffer holds ------------------------------------------------

  /** The last cycle of the source whose switch tick comes before the sink's switch tick in cycle d. */
  function Origin(k: Conn, d: int): int {
    var r := k.passive.rate;
    (if Before(k.active.rate, r) then Prev(r, d) else Prev(r, d + 1)) - Period(r)
  }

  /** x is the sample taken in cycle s, or the default if that was before the start. */
  ghost predicate Of(x: Sample, ts: seq<Stored>, s: int, start: int) {
    if x.number == 0 then s < start else x.number <= |ts| && ts[x.number - 1].cycle == s
  }

  ghost predicate TakenIn(ts: seq<Stored>, s: int) { exists i :: 0 <= i < |ts| && ts[i].cycle == s }

  /** One sample for each due cycle of the source up to x, in their order. */
  ghost predicate Regular(ts: seq<Stored>, r: Rate, x: int, start: int) {
    && (forall i :: 0 <= i < |ts| ==> start <= ts[i].cycle <= x && Due(r, ts[i].cycle))
    && (forall i, j :: 0 <= i < j < |ts| ==> ts[i].cycle < ts[j].cycle)
    && (forall s :: Due(r, s) && start <= s <= x ==> TakenIn(ts, s))
  }

  /** The last due cycle of the source whose sample has been taken: ls, or the one before. */
  function Newest(k: Conn, ls: int, awaits: bool): int { if awaits then ls - Period(k.passive.rate) else ls }

  /** ls, lk: the last turns of source and sink. */
  ghost predicate FreshAt(k: Conn, l: Link, ts: seq<Stored>, start: int, ls: int, lk: int, awaits: bool) {
    && l.StateLink? && l.latch.intern.number == |ts| == l.taken
    && Of(l.latch.intern, ts, Newest(k, ls, awaits), start)
    && (!k.SameRate() ==> Of(l.latch.middle, ts, ls - Period(k.passive.rate), start))
    && Of(l.latch.extern, ts, Origin(k, lk), start)
    && Regular(ts, k.passive.rate, Newest(k, ls, awaits), start) && (awaits ==> start <= ls)
    && (forall j :: 0 <= j < |l.pulls| ==> Of(l.pulls[j].sample, ts, Origin(k, l.pulls[j].cycle), start))
  }

  lemma OfMore(x: Sample, ts: seq<Stored>, y: Stored, s: int, start: int)
    requires Of(x, ts, s, start)
    ensures Of(x, ts + [y], s, start)
  {
  }

  lemma PassiveFresh(k: Conn, l: Link, ts: seq<Stored>, start: int, now: int, lk: int)
    requires k.active != k.passive && start <= now && FreshAt(k, l, ts, start, now - Period(k.passive.rate), lk, false)
    ensures FreshAt(k, OnSwitch(k, l, k.passive), ts, start, now, lk, true)
  {
    hide Of, Regular, Origin, Period;
  }

  lemma ActiveFresh(k: Conn, l: Link, ts: seq<Stored>, start: int, ls: int, lk: int, awaits: bool, now: int)
    requires FreshAt(k, l, ts, start, ls, lk, awaits)
    requires Origin(k, now) == if k.SameRate() then Newest(k, ls, awaits) else ls - Period(k.passive.rate)
    ensures FreshAt(k, OnSwitch(k, l, k.active), ts, start, ls, now, awaits)
  {
    hide Of, Regular, Origin, Period, Newest;
  }

  lemma RegularMore(ts: seq<Stored>, r: Rate, ls: int, start: int, value: int)
    requires Regular(ts, r, ls - Period(r), start) && Due(r, ls) && start <= ls
    ensures Regular(ts + [Stored(value, ls)], r, ls, start)
  {
    hide Due;
    var us := ts + [Stored(value, ls)];
    forall x | Due(r, x) && start <= x <= ls ensures TakenIn(us, x) {
      if x <= ls - Period(r) {
        var i :| 0 <= i < |ts| && ts[i].cycle == x;
        assert us[i].cycle == x;
      } else {
        DueGap(r, ls, x);
        assert us[|ts|].cycle == x;
      }
    }
  }

  lemma SampleFresh(k: Conn, l: Link, ts: seq<Stored>, start: int, ls: int, lk: int, value: int)
    requires FreshAt(k, l, ts, start, ls, lk, true) && Due(k.passive.rate, ls)
    ensures FreshAt(k, l.(latch := l.latch.(intern := Sample(value, l.taken + 1)), taken := l.taken + 1), ts + [Stored(value, ls)], start, ls, lk, false)
  {
    hide Of, Regular, Origin, Due;
    var x := Stored(value, ls);
    RegularMore(ts, k.passive.rate, ls, start, value);
    OfLast(ts, x, start);
    if !k.SameRate() { OfMore(l.latch.middle, ts, x, ls - Period(k.passive.rate), start); }
    OfMore(l.latch.extern, ts, x, Origin(k, lk), start);
    forall j | 0 <= j < |l.pulls| ensures Of(l.pulls[j].sample, ts + [x], Origin(k, l.pulls[j].cycle), start) {
      OfMore(l.pulls[j].sample, ts, x, Origin(k, l.pulls[j].cycle), start);
    }
  }

  lemma OfLast(ts: seq<Stored>, x: Stored, start: int)
    ensures Of(Sample(x.value, |ts| + 1), ts + [x], x.cycle, start)
  {
  }

  // ---- every step keeps it -------------------------------------------------------------------

  ghost predicate FreshOk(sys: System, s: State, c: nat, ts: seq<Stored>, start: int) {
    && c < |sys.conns| && c < |s.links| && sys.conns[c].kind == States && start <= Turn(s)
    && var k := sys.conns[c];
       FreshAt(k, s.links[c], ts, start, Last(s, k.passive, c), Last(s, k.active, c), Awaits(sys, s, c))
  }

  /** What a step may rely on in a run without timeouts. */
  ghost predicate Settled(sys: System, s: State) {
    sys.Valid() && Control(sys, s) && TimeOk(s) && Complete(sys, s.pc, s.done) && Stamped(s)
  }

  /** When the sink's switch tick comes: the turns of the source so far, from a different rate. */
  lemma SourceTurn(sys: System, s: State, c: nat)
    requires Control(sys, s) && TimeOk(s) && c < |sys.conns| && TickAt(sys, s, c, sys.conns[c].active) && !sys.conns[c].SameRate()
    ensures var k := sys.conns[c]; Last(s, k.passive, c) - Period(k.passive.rate) == Origin(k, s.pc.now)
  {
    hide JobsOk, LinksOk, Single, FlagsOk, Groups.Get, Prev, Due, Switched;
    TickTime(sys, s, sys.conns[c].active, c);
  }

  /** For equal rates the source has its switch tick in the same group, before or after the sink. */
  lemma SourceTurnSame(sys: System, s: State, c: nat)
    requires Settled(sys, s) && c < |sys.conns| && TickAt(sys, s, c, sys.conns[c].active) && sys.conns[c].SameRate()
    ensures var k := sys.conns[c]; Newest(k, Last(s, k.passive, c), Awaits(sys, s, c)) == Origin(k, s.pc.now)
  {
    hide JobsOk, LinksOk, Single, FlagsOk, Groups.Get, Prev, Due, Switched, Stamped, Awaits, Period;
    var k := sys.conns[c];
    TickTime(sys, s, k.active, c);
    PrevFacts(k.passive.rate, s.pc.now);
    assert s.done.Get(s.pc.rate)[k.passive.index] == k.passive;
    HeldAwaits(sys, s, c);
  }

  lemma MainFresh(sys: System, s: State, c: nat, ts: seq<Stored>, start: int)
    requires Settled(sys, s) && FreshOk(sys, s, c, ts, start)
    ensures FreshOk(sys, MainStep(sys, s), c, ts, start)
  {
    hide Control, TimeOk, Complete, Stamped, Last, FreshAt, MainStep, Awaits, TickAt, Origin, Newest, OnSwitch, Groups.Get;
    var k, l := sys.conns[c], s.links[c];
    MainTurn(sys, s);
    MainLink(sys, s, c);
    MainAwaits(sys, s, c);
    LastMoves(sys, s, Main, k.active, c);
    LastMoves(sys, s, Main, k.passive, c);
    OneTick(sys, s, c);
    if TickAt(sys, s, c, k.passive) {
      PassiveFresh(k, l, ts, start, s.pc.now, Last(s, k.active, c));
    } else if TickAt(sys, s, c, k.active) {
      if k.SameRate() { SourceTurnSame(sys, s, c); } else { SourceTurn(sys, s, c); }
      ActiveFresh(k, l, ts, start, Last(s, k.passive, c), Last(s, k.active, c), Awaits(sys, s, c), s.pc.now);
    }
  }

  /** Which task's switch tick reaches the connection, and what it does there. */
  lemma OneTick(sys: System, s: State, c: nat)
    requires sys.Valid() && Control(sys, s) && c < |sys.conns|
    ensures var k := sys.conns[c];
      && !(TickAt(sys, s, c, k.active) && TickAt(sys, s, c, k.passive)) && k.active != k.passive && sys.Has(k.active) && sys.Has(k.passive)
      && |MainStep(sys, s).links| == |s.links| == |sys.conns|
      && (TickAt(sys, s, c, k.active) ==> InCycle(s.pc) && MainStep(sys, s).links[c] == OnSwitch(k, s.links[c], k.active))
      && (TickAt(sys, s, c, k.passive) ==> InCycle(s.pc) && MainStep(sys, s).links[c] == OnSwitch(k, s.links[c], k.passive))
      && (!TickAt(sys, s, c, k.active) && !TickAt(sys, s, c, k.passive) ==> MainStep(sys, s).links[c] == s.links[c])
  {
    hide JobsOk, Single, FlagsOk, Groups.Get, Groups.Set, InGroup, Due;
  }

  lemma MainTurn(sys: System, s: State)
    requires TimeOk(s)
    ensures Turn(MainStep(sys, s)) >= Turn(s)
  {
    hide Groups.Get, Groups.Set, Due, OnSwitch;
  }

  lemma StepFresh(sys: System, s: State, a: Action, c: nat, ts: seq<Stored>, start: int)
    requires Settled(sys, s) && FreshOk(sys, s, c, ts, start) && !a.TimedOut?
    ensures FreshOk(sys, Step(sys, s, a), c, ts + Taken(sys, s, a, c), start)
  {
    hide Control, TimeOk, Complete, Stamped, Last, FreshAt, Step, Awaits, Taken;
    assert ts + [] == ts;
    TakenByTick(sys, s, a, c);
    if a.Main? {
      MainNothing(sys, s, c);
      MainFresh(sys, s, c, ts, start);
    } else if Taken(sys, s, a, c) != [] {
      TickFresh(sys, s, a.w, a.value, c, ts, start);
    } else if a.Pull? {
      PullFresh(sys, s, a.w, a.conn, c, ts, start);
    } else {
      OtherFresh(sys, s, a, c, ts, start);
    }
  }

  lemma TakenByTick(sys: System, s: State, a: Action, c: nat)
    ensures Taken(sys, s, a, c) != [] ==> a.Tick? && a == Tick(a.w, c, a.value)
  {
  }

  lemma MainNothing(sys: System, s: State, c: nat)
    ensures Taken(sys, s, Main, c) == [] && Step(sys, s, Main) == MainStep(sys, s)
  {
  }

  lemma TickFresh(sys: System, s: State, w: nat, value: int, c: nat, ts: seq<Stored>, start: int)
    requires Settled(sys, s) && FreshOk(sys, s, c, ts, start) && Taken(sys, s, Tick(w, c, value), c) != []
    ensures FreshOk(sys, Step(sys, s, Tick(w, c, value)), c, ts + Taken(sys, s, Tick(w, c, value), c), start)
  {
    hide JobsOk, Single, PcOk, FlagsOk, TimeOk, Complete, Stamped, Last, FreshAt, Awaits, Due;
    var k, a := sys.conns[c], Tick(w, c, value);
    LastMoves(sys, s, a, k.active, c);
    LastMoves(sys, s, a, k.passive, c);
    assert HasTodo(s.workers[w], c);
    TodoRuns(sys, s, w, c);
    SampleAwaits(sys, s, w, value, c);
    InstanceCycle(sys, s, w, k.passive, k.passive, c);
    LastDue(s, k.passive, c);
    SampleFresh(k, s.links[c], ts, start, Last(s, k.passive, c), Last(s, k.active, c), value);
  }

  lemma LastDue(s: State, t: Task, c: nat)
    ensures Due(t.rate, Last(s, t, c))
  {
    hide Prev, Turned, Due;
    DuePrev(t.rate, s.clock);
    if InCycle(s.pc) { DuePrev(t.rate, s.pc.now); }
  }

  lemma PullFresh(sys: System, s: State, w: nat, e: nat, c: nat, ts: seq<Stored>, start: int)
    requires Settled(sys, s) && FreshOk(sys, s, c, ts, start)
    ensures FreshOk(sys, Step(sys, s, Pull(w, e)), c, ts + Taken(sys, s, Pull(w, e), c), start)
  {
    hide JobsOk, Single, PcOk, FlagsOk, TimeOk, Complete, Stamped, Last, Awaits, Of, Regular, Origin, Newest;
    var k, a := sys.conns[c], Pull(w, e);
    assert ts + [] == ts;
    LastMoves(sys, s, a, k.active, c);
    LastMoves(sys, s, a, k.passive, c);
    OtherAwaits(sys, s, a, c);
    if Step(sys, s, a).links[c] != s.links[c] { InstanceCycle(sys, s, w, k.active, k.active, c); }
  }

  lemma OtherFresh(sys: System, s: State, a: Action, c: nat, ts: seq<Stored>, start: int)
    requires Settled(sys, s) && FreshOk(sys, s, c, ts, start) && !a.Main? && !a.Pull? && !a.TimedOut? && Taken(sys, s, a, c) == []
    ensures FreshOk(sys, Step(sys, s, a), c, ts, start)
  {
    hide JobsOk, Single, PcOk, FlagsOk, TimeOk, Complete, Stamped, Last, Awaits, FreshAt, Step, Taken;
    var k := sys.conns[c];
    LastMoves(sys, s, a, k.active, c);
    LastMoves(sys, s, a, k.passive, c);
    if a.Take? { TakeOther(sys, s, a.w, c); } else { OtherAwaits(sys, s, a, c); }
    OtherLink(sys, s, a, c);
  }

  lemma TakeOther(sys: System, s: State, w: nat, c: nat)
    requires c < |sys.conns|
    ensures Awaits(sys, Step(sys, s, Take(w)), c) <==> Awaits(sys, s, c)
  {
    hide Awaits, TakeStep;
    TakeAwaits(sys, s, w, c);
  }

  lemma OtherLink(sys: System, s: State, a: Action, c: nat)
    requires LinksOk(sys, s.links) && TimeOk(s) && c < |sys.conns| && sys.conns[c].kind == States
    requires !a.Main? && !a.Pull? && !a.TimedOut? && Taken(sys, s, a, c) == []
    ensures c < |Step(sys, s, a).links| && Step(sys, s, a).links[c] == s.links[c] && Turn(Step(sys, s, a)) >= Turn(s)
  {
    hide MainStep, Groups.Get, Due;
  }

  // ---- the theorem ---------------------------------------------------------------------------

  lemma InitFresh(sys: System, clock: int, threads: nat, c: nat)
    requires sys.Valid() && c < |sys.conns| && sys.conns[c].kind == States
    ensures Settled(sys, Init(sys, clock, threads)) && FreshOk(sys, Init(sys, clock, threads), c, [], clock)
  {
    hide Prev, Control, Complete, Due, Period;
    InitControl(sys, clock, threads);
    InitComplete(sys, clock, threads);
    var k, s := sys.conns[c], Init(sys, clock, threads);
    PrevFacts(k.passive.rate, clock);
    PrevFacts(k.active.rate, clock);
    var d := Prev(k.active.rate, clock);
    PrevFacts(k.passive.rate, d);
    PrevFacts(k.passive.rate, d + 1);
    assert Queued([]) == {};
  }

  lemma {:induction false} RunFresh(sys: System, clock: int, threads: nat, acts: seq<Action>, c: nat)
    requires sys.Valid() && c < |sys.conns| && sys.conns[c].kind == States && Punctual(acts)
    ensures var s0 := Init(sys, clock, threads);
      var s := Run(sys, s0, acts); Settled(sys, s) && FreshOk(sys, s, c, Takes(sys, s0, acts, c), clock)
  {
    hide Control, Complete, TimeOk, Stamped, FreshOk, Step, Taken;
    if acts == [] {
      InitFresh(sys, clock, threads, c);
    } else {
      hide Init;
      var s0, before, a := Init(sys, clock, threads), acts[..|acts| - 1], acts[|acts| - 1];
      RunFresh(sys, clock, threads, before, c);
      var s := Run(sys, s0, before);
      assert !a.TimedOut?;
      StepControl(sys, s, a);
      StepTime(sys, s, a);
      StepComplete(sys, s, a);
      StepStamped(sys, s, a);
      StepFresh(sys, s, a, c, Takes(sys, s0, before, c), clock);
    }
  }

  /** The source's switch tick after its cycle x comes before the sink's switch tick in cycle d. */
  predicate Visible(k: Conn, x: int, d: int) {
    Due(k.passive.rate, x)
    && if Before(k.active.rate, k.passive.rate) then x + Period(k.passive.rate) < d else x + Period(k.passive.rate) <= d
  }

  lemma VisibleIff(k: Conn, x: int, d: int)
    requires Due(k.passive.rate, x)
    ensures Visible(k, x, d) <==> x <= Origin(k, d)
    ensures Visible(k, Origin(k, d), d) && d - 2 * Period(k.passive.rate) <= Origin(k, d)
  {
    hide Due, Prev;
    var r := k.passive.rate;
    var p, y := Period(r), if Before(k.active.rate, r) then d else d + 1;
    PrevFacts(r, y);
    DuePrev(r, y);
    DueLater(r, x);
    DueLater(r, Origin(k, d));
    if x + p < y && Prev(r, y) < x + p { DueGap(r, Prev(r, y), x + p); }
  }

  /**
   * A pull in the sink's cycle d sees the sample with number n among those taken.  It is that of
   * a cycle of the source that is visible in d, no older than two periods of the source, and at
   * least as new as every other that is visible; the default is seen only while no cycle is.
   */
  lemma Freshness(sys: System, clock: int, threads: nat, acts: seq<Action>, c: nat, j: nat)
    requires sys.Valid() && c < |sys.conns| && sys.conns[c].kind == States && Punctual(acts)
    requires j < |PullCycles(sys, Init(sys, clock, threads), acts, c)|
    ensures var s0, k := Init(sys, clock, threads), sys.conns[c];
      var s, ts, d := Run(sys, s0, acts), Takes(sys, s0, acts, c), PullCycles(sys, s0, acts, c)[j];
      && c < |s.links| && s.links[c].StateLink? && j < |s.links[c].pulls|
      && var x := s.links[c].pulls[j].sample;
      var n := x.number;
      && n <= |ts| && (n > 0 ==>
            x.value == ts[n - 1].value && Visible(k, ts[n - 1].cycle, d) && d - 2 * Period(k.passive.rate) <= ts[n - 1].cycle)
      && (forall i :: 0 <= i < |ts| && Visible(k, ts[i].cycle, d) ==> i < n)
      && (n == 0 ==> forall y :: Visible(k, y, d) ==> y < clock)
  {
    hide Control, Complete, TimeOk, Stamped, Step, Run, Init, Takes, PullCycles, Last, Awaits, Visible, Origin, Due, Newest;
    PullsAsTaken(sys, clock, threads, acts, c);
    RunFresh(sys, clock, threads, acts, c);
    var s0, k := Init(sys, clock, threads), sys.conns[c];
    var l, ts := Run(sys, s0, acts).links[c], Takes(sys, s0, acts, c);
    var d, n := l.pulls[j].cycle, l.pulls[j].sample.number;
    forall x | Visible(k, x, d) ensures x <= Origin(k, d) { VisibleDue(k, x, d); VisibleIff(k, x, d); }
    if n > 0 { VisibleIff(k, ts[n - 1].cycle, d); }
  }

  lemma VisibleDue(k: Conn, x: int, d: int)
    requires Visible(k, x, d)
    ensures Due(k.passive.rate, x)
  {
  }

  /** The source takes one sample in each of its due cycles, before its next turn. */
  lemma OneSamplePerCycle(sys: System, clock: int, threads: nat, acts: seq<Action>, c: nat)
    requires sys.Valid() && c < |sys.conns| && sys.conns[c].kind == States && Punctual(acts)
    ensures var s0, r := Init(sys, clock, threads), sys.conns[c].passive.rate;
      var s, ts := Run(sys, s0, acts), Takes(sys, s0, acts, c);
      && (forall i :: 0 <= i < |ts| ==> clock <= ts[i].cycle && Due(r, ts[i].cycle))
      && (forall i, j :: 0 <= i < j < |ts| ==> ts[i].cycle < ts[j].cycle)
      && (forall x :: Due(r, x) && clock <= x && x + Period(r) < Turn(s) ==> TakenIn(ts, x))
  {
    hide Control, Complete, Stamped, Step, Run, Init, Takes, Awaits, Due, Last, TakenIn, TimeOk;
    RunFresh(sys, clock, threads, acts, c);
    var s0, t := Init(sys, clock, threads), sys.conns[c].passive;
    var s := Run(sys, s0, acts);
    forall x | Due(t.rate, x) && clock <= x && x + Period(t.rate) < Turn(s) ensures x <= Last(s, t, c) - Period(t.rate) {
      PastTurn(s, t, c, x + Period(t.rate));
    }
  }

  lemma PastTurn(s: State, t: Task, c: nat, x: int)
    requires TimeOk(s) && Due(t.rate, x - Period(t.rate)) && x < Turn(s)
    ensures x <= Last(s, t, c)
  {
    hide Prev, Due, Turned;
    DueLater(t.rate, x - Period(t.rate));
    NotAfter(t.rate, x, s.clock);
    if InCycle(s.pc) { NotAfter(t.rate, x, s.pc.now); }
  }

  lemma NotAfter(r: Rate, x: int, y: int)
    requires Due(r, x) && x < y
    ensures x <= Prev(r, y)
  {
    hide Due, Prev, Period;
    PrevFacts(r, y);
    DuePrev(r, y);
    if Prev(r, y) < x { DueGap(r, Prev(r, y), x); }
  }
}
