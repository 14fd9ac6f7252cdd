/**
 * Cross-region event connections over every run of the scheduler: what has been delivered,
 * followed by what lies in the extern, middle and intern buffers, is what has been fired.
 */
module SchedulerEvents {
  import opened ConnectionBuffers
  import opened Scheduling
  import opened SchedulerControl
  import opened SchedulerHistory

  function Tokens(ds: seq<Delivery>): seq<Token> { seq(|ds|, i requires 0 <= i < |ds| => ds[i].token) }

  // ---- the statement -------------------------------------------------------------------------

  ghost predicate SendsOn(x: Worker, c: nat) { x.On? && x.loop.Sending? && x.loop.conn == c }

  /** Everything fired is delivered or still under way, with n events of extern sent already. */
  ghost predicate Balanced(l: Link, n: nat)
    requires l.EventLink?
  {
    n <= |l.cells.extern| && l.fired == Tokens(l.delivered) + l.cells.(extern := l.cells.extern[n..]).Content()
  }

  ghost predicate Conserved(l: Link, workers: seq<Worker>, c: nat)
    requires l.EventLink?
  {
    && (forall w :: 0 <= w < |workers| && SendsOn(workers[w], c) ==>
          workers[w].loop.end == |l.cells.extern| && Balanced(l, workers[w].loop.next))
    && ((forall w :: 0 <= w < |workers| ==> !SendsOn(workers[w], c)) ==> Balanced(l, 0))
  }

  // ---- when extern may hold events -----------------------------------------------------------

  /** The worker has still to send, or is sending, what extern holds. */
  ghost predicate Drains(x: Worker, c: nat) { x.On? && (c in x.todo || SendsOn(x, c)) }

  /** The tasks whose switch tick has gone over connection c in the current call. */
  ghost function Switched(pc: Pc, done: Groups<seq<Task>>, c: nat): seq<Task> {
    match pc
    case Switching(_, r, i) => if i <= |done.Get(r)| then done.Get(r)[..i] else []
    case Ticking(_, r, i, k) => if i < |done.Get(r)| then done.Get(r)[..if c < k then i + 1 else i] else []
    case Dispatching(_, r, i) => done.Get(r)
    case _ => []
  }

  /** The task whose switch tick moves events into extern. */
  function Loader(c: Conn): Task { if c.SameRate() then c.active else c.passive }

  ghost predicate Loaded(sys: System, pc: Pc, done: Groups<seq<Task>>, c: nat)
    requires c < |sys.conns|
  {
    sys.conns[c].passive in Held(pc, done) && Loader(sys.conns[c]) in Switched(pc, done, c)
  }

  ghost predicate Expected(sys: System, s: State, c: nat)
    requires c < |sys.conns|
  {
    || sys.conns[c].passive in Queued(s.queue)
    || (exists w :: 0 <= w < |s.workers| && Drains(s.workers[w], c))
    || Loaded(sys, s.pc, s.done, c)
  }

  ghost predicate EventOk(sys: System, s: State, c: nat) {
    && c < |sys.conns| && c < |s.links| && s.links[c].EventLink?
    && s.links[c].cells.Fresh() && (sys.conns[c].SameRate() ==> s.links[c].cells.middle == [])
    && Conserved(s.links[c], s.workers, c)
    && (s.links[c].cells.extern != [] ==> Expected(sys, s, c))
  }

  // ---- calls in which no task is skipped -----------------------------------------------------

  function Whole(r: Rate, n: nat): seq<Task> { seq(n, i requires 0 <= i < n => Task(r, i)) }

  /** done_tasks holds every task of the group looked at so far. */
  ghost predicate Complete(sys: System, pc: Pc, done: Groups<seq<Task>>) {
    match pc
    case Checking(_, r, i) => done.Get(r) == Whole(r, i)
    case Asking(_, r, i) => done.Get(r) == Whole(r, i)
    case Rechecking(_, r, i) => false
    case Switching(_, r, i) => done.Get(r) == Whole(r, sys.sizes.Get(r))
    case Ticking(_, r, i, _) => done.Get(r) == Whole(r, sys.sizes.Get(r))
    case Dispatching(_, r, i) => done.Get(r) == Whole(r, sys.sizes.Get(r))
    case _ => true
  }

  /** Connections of equal rate are only covered by runs in which the handler never goes on. */
  ghost predicate Covered(sys: System, s: State, c: nat) {
    c < |sys.conns| && (sys.conns[c].SameRate() ==> Complete(sys, s.pc, s.done))
  }

  lemma StepComplete(sys: System, s: State, a: Action)
    requires Control(sys, s) && Complete(sys, s.pc, s.done) && a != TimedOut(true)
    ensures Complete(sys, Step(sys, s, a).pc, Step(sys, s, a).done)
  {
    hide FlagsOk, Single, JobsOk, LinksOk, Queued, Executing, Groups.Get, Groups.Set, OnSwitch;
    if ByWorker(a) {
      WorkerFrame(sys, s, a);
    } else if a.Main? && s.pc.Checking? {
      assert Whole(s.pc.rate, s.pc.i) + [Task(s.pc.rate, s.pc.i)] == Whole(s.pc.rate, s.pc.i + 1);
    }
  }

  // ---- switch ticks --------------------------------------------------------------------------

  /** Nobody sends on a connection whose passive end has no running instance. */
  lemma NobodyDrains(sys: System, s: State, c: nat)
    requires Control(sys, s) && c < |sys.conns| && sys.conns[c].passive !in Executing(s.workers)
    ensures forall w :: 0 <= w < |s.workers| ==> !Drains(s.workers[w], c)
  {
    hide FlagsOk, PcOk, Single;
    forall w | 0 <= w < |s.workers| ensures !Drains(s.workers[w], c) {
      assert WorkerOk(sys, s.workers[w]);
    }
  }

  /** The active switch keeps the balance, whatever the sink's worker is doing. */
  lemma ActiveBalanced(l: Link, n: nat)
    requires l.EventLink? && l.cells.Fresh() && Balanced(l, n)
    ensures Balanced(l.(cells := SwitchActive(l.cells)), n)
  {
    SwitchActiveKeeps(l.cells.(extern := l.cells.extern[n..]));
  }

  lemma PassiveBalanced(l: Link)
    requires l.EventLink? && l.cells.extern == [] && Balanced(l, 0)
    ensures Balanced(l.(cells := SwitchPassive(l.cells)), 0)
  {
    SwitchPassiveDrops(l.cells);
    var b := SwitchPassive(l.cells);
    assert b.(extern := b.extern[0..]) == b && l.cells.(extern := l.cells.extern[0..]) == l.cells;
  }

  lemma DirectBalanced(l: Link)
    requires l.EventLink? && l.cells.middle == [] && Balanced(l, 0)
    ensures Balanced(l.(cells := SwitchActivePassive(l.cells)), 0)
  {
    SwitchActivePassiveKeeps(l.cells);
    var b := SwitchActivePassive(l.cells);
    assert b.(extern := b.extern[0..]) == b && l.cells.(extern := l.cells.extern[0..]) == l.cells;
  }

  /**
   * When the switch tick of the passive end reaches the connection, extern is empty: this is why
   * switch_passive_buffers may throw its old content away.
   */
  lemma ExternDrained(sys: System, s: State, c: nat)
    requires Control(sys, s) && EventOk(sys, s, c) && !sys.conns[c].SameRate()
    requires s.pc.Ticking? && s.pc.k == c && s.done.Get(s.pc.rate)[s.pc.i] == sys.conns[c].passive
    ensures s.links[c].cells.extern == []
    ensures forall w :: 0 <= w < |s.workers| ==> !SendsOn(s.workers[w], c)
  {
    hide JobsOk, LinksOk, Single, Conserved, Queued, Executing, Groups.Get;
    var p, h := sys.conns[c].passive, s.done.Get(s.pc.rate);
    assert p in Elems(h);
    NobodyDrains(sys, s, c);
    assert p !in h[..s.pc.i];
  }

  lemma LoadedSent(sys: System, s: State, c: nat)
    requires Control(sys, s) && c < |sys.conns| && s.pc.Dispatching? && Loaded(sys, s.pc, s.done, c)
    ensures Loaded(sys, MainStep(sys, s).pc, MainStep(sys, s).done, c) || sys.conns[c].passive in Queued(MainStep(sys, s).queue)
  {
    hide Control, Queued, Groups.Get, Groups.Set;
    var h, i, p := s.done.Get(s.pc.rate), s.pc.i, sys.conns[c].passive;
    OneOfRest(h, i, p);
    JustQueued(s.queue, Job(h[i], s.pc.now));
  }

  lemma OneOfRest(h: seq<Task>, i: nat, p: Task)
    requires i <= |h| && p in h[i..]
    ensures i < |h| && (p == h[i] || p in h[i + 1..])
  {
    var j :| 0 <= j < |h[i..]| && h[i..][j] == p;
    if j > 0 { assert h[i + 1..][j - 1] == p; }
  }

  lemma JustQueued(q: seq<Job>, j: Job)
    ensures j.task in Queued(q + [j])
  {
    assert (q + [j])[|q|] == j;
  }

  /** What is loaded stays loaded until the sink is dispatched. */
  lemma LoadedStays(sys: System, s: State, c: nat)
    requires Control(sys, s) && c < |sys.conns| && Loaded(sys, s.pc, s.done, c)
    ensures Loaded(sys, MainStep(sys, s).pc, MainStep(sys, s).done, c) || sys.conns[c].passive in Queued(MainStep(sys, s).queue)
  {
    hide Control, Queued, MainStep, Groups.Get;
    if s.pc.Dispatching? {
      LoadedSent(sys, s, c);
    } else {
      LoadedSwitched(sys, s, c);
    }
  }

  lemma LoadedSwitched(sys: System, s: State, c: nat)
    requires Control(sys, s) && c < |sys.conns| && Loaded(sys, s.pc, s.done, c) && !s.pc.Dispatching?
    ensures Loaded(sys, MainStep(sys, s).pc, MainStep(sys, s).done, c)
  {
    hide Control, Groups.Get, MainStep, Held;
    if s.pc.Switching? { LoadedMarked(sys, s, c); } else { LoadedTicked(sys, s, c); }
  }

  lemma LoadedMarked(sys: System, s: State, c: nat)
    requires Control(sys, s) && c < |sys.conns| && Loaded(sys, s.pc, s.done, c) && s.pc.Switching?
    ensures Loaded(sys, MainStep(sys, s).pc, MainStep(sys, s).done, c)
  {
    hide FlagsOk, Single, JobsOk, LinksOk, Groups.Get, Groups.Set, InGroup;
    MainControl(sys, s);
    var h := s.done.Get(s.pc.rate);
    assert h[0..] == h && h[..|h|] == h;
  }

  lemma LoadedTicked(sys: System, s: State, c: nat)
    requires Control(sys, s) && c < |sys.conns| && Loaded(sys, s.pc, s.done, c) && s.pc.Ticking?
    ensures Loaded(sys, MainStep(sys, s).pc, MainStep(sys, s).done, c)
  {
    hide FlagsOk, Single, JobsOk, Groups.Get, Groups.Set, InGroup, OnSwitch;
    var h, i := s.done.Get(s.pc.rate), s.pc.i;
    assert h[..i] <= h[..i + 1];
  }

  lemma MainQueue(sys: System, s: State)
    ensures MainStep(sys, s).workers == s.workers && s.queue <= MainStep(sys, s).queue
  {
    hide Groups.Get, Groups.Set, OnSwitch, Due;
  }

  /** A step of the main thread that leaves connection c as it is. */
  lemma MainFrame(sys: System, s: State, c: nat)
    requires Control(sys, s) && EventOk(sys, s, c) && c < |MainStep(sys, s).links| && MainStep(sys, s).links[c] == s.links[c]
    ensures EventOk(sys, MainStep(sys, s), c)
  {
    hide Control, Executing, Queued, Loaded, Conserved, Drains, MainStep;
    var n := MainStep(sys, s);
    MainQueue(sys, s);
    QueuedGrows(s.queue, n.queue);
    if Loaded(sys, s.pc, s.done, c) { LoadedStays(sys, s, c); }
  }

  lemma QueuedGrows(q: seq<Job>, r: seq<Job>)
    requires q <= r
    ensures Queued(q) <= Queued(r)
  {
    forall i | 0 <= i < |q| ensures q[i].task in Queued(r) { assert r[i] == q[i]; }
  }

  ghost predicate TickAt(sys: System, s: State, c: nat, t: Task) {
    c < |sys.conns| && s.pc.Ticking? && s.pc.k == c && s.pc.i < |s.done.Get(s.pc.rate)| && s.done.Get(s.pc.rate)[s.pc.i] == t
  }

  lemma ActiveTick(sys: System, s: State, c: nat)
    requires Control(sys, s) && EventOk(sys, s, c) && TickAt(sys, s, c, sys.conns[c].active) && !sys.conns[c].SameRate()
    ensures EventOk(sys, MainStep(sys, s), c)
  {
    hide Control, Executing, Queued, Loaded, Balanced, Drains, Groups.Get;
    var n, l := MainStep(sys, s), s.links[c];
    forall k: nat | Balanced(l, k) ensures Balanced(n.links[c], k) { ActiveBalanced(l, k); }
    if Loaded(sys, s.pc, s.done, c) { LoadedStays(sys, s, c); }
  }

  lemma PassiveTick(sys: System, s: State, c: nat)
    requires Control(sys, s) && EventOk(sys, s, c) && TickAt(sys, s, c, sys.conns[c].passive) && !sys.conns[c].SameRate()
    ensures EventOk(sys, MainStep(sys, s), c)
  {
    hide Control, Executing, Queued, Balanced, Drains, Groups.Get;
    ExternDrained(sys, s, c);
    PassiveBalanced(s.links[c]);
    var h := s.done.Get(s.pc.rate);
    assert h[..s.pc.i + 1][s.pc.i] == h[s.pc.i];
    assert Loaded(sys, MainStep(sys, s).pc, s.done, c);
  }

  /** Both ends of a connection of equal rate are held when one of them is switched. */
  lemma BothHeld(sys: System, s: State, c: nat)
    requires Control(sys, s) && sys.Valid() && c < |sys.conns| && TickAt(sys, s, c, sys.conns[c].active)
    requires sys.conns[c].SameRate() && Complete(sys, s.pc, s.done)
    ensures sys.conns[c].passive in Held(s.pc, s.done) && sys.conns[c].passive !in Busy(s)
  {
    hide JobsOk, LinksOk, Single, Queued, Executing, Groups.Get;
    var p, h := sys.conns[c].passive, s.done.Get(s.pc.rate);
    assert h[p.index] == p;
    assert p in Elems(h);
  }

  lemma DirectTick(sys: System, s: State, c: nat)
    requires Control(sys, s) && sys.Valid() && EventOk(sys, s, c) && TickAt(sys, s, c, sys.conns[c].active)
    requires sys.conns[c].SameRate() && Complete(sys, s.pc, s.done)
    ensures EventOk(sys, MainStep(sys, s), c)
  {
    hide Control, Executing, Queued, Balanced, Groups.Get;
    BothHeld(sys, s, c);
    NobodyDrains(sys, s, c);
    DirectBalanced(s.links[c]);
    var h := s.done.Get(s.pc.rate);
    assert h[..s.pc.i + 1][s.pc.i] == h[s.pc.i];
    assert Loaded(sys, MainStep(sys, s).pc, s.done, c);
  }

  lemma MainEvents(sys: System, s: State, c: nat)
    requires Control(sys, s) && sys.Valid() && EventOk(sys, s, c) && Covered(sys, s, c)
    ensures EventOk(sys, MainStep(sys, s), c)
  {
    hide Executing, Queued, Balanced, Groups.Get, EventOk, FlagsOk, JobsOk, Single, Complete;
    var k := sys.conns[c];
    if TickAt(sys, s, c, k.active) {
      if k.SameRate() { DirectTick(sys, s, c); } else { ActiveTick(sys, s, c); }
    } else if TickAt(sys, s, c, k.passive) && !k.SameRate() {
      PassiveTick(sys, s, c);
    } else {
      MainFrame(sys, s, c);
    }
  }

  // ---- the workers ---------------------------------------------------------------------------

  /** Only one worker deals with the buffer of a connection. */
  lemma OnlyOne(sys: System, s: State, w: nat, c: nat)
    requires Control(sys, s) && Active(s, w) && c < |sys.conns| && s.workers[w].job.task == sys.conns[c].passive
    ensures forall v :: 0 <= v < |s.workers| && v != w ==> !Drains(s.workers[v], c)
  {
    hide FlagsOk, PcOk, Queued, Executing, LinksOk;
    forall v | 0 <= v < |s.workers| && v != w ensures !Drains(s.workers[v], c) {
      assert WorkerOk(sys, s.workers[v]);
    }
  }

  lemma FireBalanced(l: Link, token: Token, k: nat)
    requires l.EventLink? && Balanced(l, k)
    ensures Balanced(l.(cells := l.cells.(intern := l.cells.intern + [token]), fired := l.fired + [token]), k)
  {
    var b := l.cells.(extern := l.cells.extern[k..]);
    assert b.(intern := b.intern + [token]).Content() == b.Content() + [token];
    assert Tokens(l.delivered) + b.Content() + [token] == Tokens(l.delivered) + (b.Content() + [token]);
  }

  lemma DeliverBalanced(l: Link, k: nat, cycle: int)
    requires l.EventLink? && Balanced(l, k) && k < |l.cells.extern|
    ensures Balanced(l.(delivered := l.delivered + [Delivery(l.cells.extern[k], cycle)]), k + 1)
  {
    var x, ds := l.cells.extern, l.delivered + [Delivery(l.cells.extern[k], cycle)];
    assert x[k..] == [x[k]] + x[k + 1..];
    assert Tokens(ds) == Tokens(l.delivered) + [x[k]];
    assert l.cells.(extern := x[k..]).Content() == [x[k]] + l.cells.(extern := x[k + 1..]).Content();
  }

  lemma SentBalanced(l: Link)
    requires l.EventLink? && Balanced(l, |l.cells.extern|)
    ensures Balanced(l.(cells := l.cells.(extern := [])), 0)
  {
    assert l.cells.(extern := l.cells.extern[|l.cells.extern|..]) == l.cells.(extern := []);
  }

  lemma FireEvents(sys: System, s: State, w: nat, e: nat, value: int, c: nat)
    requires EventOk(sys, s, c)
    ensures EventOk(sys, FireStep(sys, s, w, e, value), c)
  {
    hide Queued, Executing, Drains, Loaded, Balanced;
    var n, l := FireStep(sys, s, w, e, value), s.links[c];
    if n.links[c] != l {
      var token := Token(value, s.workers[w].job.cycle);
      forall k: nat | Balanced(l, k) ensures Balanced(n.links[c], k) { FireBalanced(l, token, k); }
    }
  }

  lemma TickStepEvents(sys: System, s: State, w: nat, e: nat, value: int, c: nat)
    requires Control(sys, s) && EventOk(sys, s, c)
    ensures EventOk(sys, TickStep(sys, s, w, e, value), c)
  {
    hide FlagsOk, PcOk, Queued, Executing, LinksOk, Single, Balanced, Loaded;
    var n := TickStep(sys, s, w, e, value);
    if n != s {
      assert WorkerOk(sys, s.workers[w]);
      if e == c { OnlyOne(sys, s, w, c); }
      forall v | 0 <= v < |s.workers| && Drains(s.workers[v], c) ensures Drains(n.workers[v], c) { }
    }
  }

  lemma DeliverEvents(sys: System, s: State, w: nat, c: nat)
    requires Control(sys, s) && EventOk(sys, s, c)
    ensures EventOk(sys, DeliverStep(sys, s, w), c)
  {
    hide FlagsOk, PcOk, Queued, Executing, LinksOk, Single, Loaded, Balanced;
    var n, l := DeliverStep(sys, s, w), s.links[c];
    if n != s {
      assert WorkerOk(sys, s.workers[w]);
      if s.workers[w].loop.conn == c {
        OnlyOne(sys, s, w, c);
        DeliverBalanced(l, s.workers[w].loop.next, s.workers[w].job.cycle);
      }
      forall v | 0 <= v < |s.workers| && Drains(s.workers[v], c) ensures Drains(n.workers[v], c) { }
    }
  }

  lemma EndSendEvents(sys: System, s: State, w: nat, c: nat)
    requires Control(sys, s) && EventOk(sys, s, c)
    ensures EventOk(sys, EndSendStep(sys, s, w), c)
  {
    hide FlagsOk, PcOk, Queued, Executing, LinksOk, Single, Loaded, Balanced;
    var n, l := EndSendStep(sys, s, w), s.links[c];
    if n != s {
      assert WorkerOk(sys, s.workers[w]);
      if s.workers[w].loop.conn == c {
        OnlyOne(sys, s, w, c);
        SentBalanced(l);
      } else {
        forall v | 0 <= v < |s.workers| && Drains(s.workers[v], c) ensures Drains(n.workers[v], c) { }
      }
    }
  }

  lemma TakeEvents(sys: System, s: State, w: nat, c: nat)
    requires EventOk(sys, s, c)
    ensures EventOk(sys, TakeStep(sys, s, w), c)
  {
    hide Executing, Balanced, Loaded;
    var n := TakeStep(sys, s, w);
    if n != s {
      forall v | 0 <= v < |s.workers| && Drains(s.workers[v], c) ensures Drains(n.workers[v], c) { }
      if sys.conns[c].passive in Queued(s.queue) {
        var i :| 0 <= i < |s.queue| && s.queue[i].task == sys.conns[c].passive;
        if i == 0 { assert Drains(n.workers[w], c); } else { assert n.queue[i - 1] == s.queue[i]; }
      }
      forall v | 0 <= v < |s.workers| ensures SendsOn(n.workers[v], c) <==> SendsOn(s.workers[v], c) { }
    }
  }

  lemma FinishEvents(sys: System, s: State, w: nat, c: nat)
    requires EventOk(sys, s, c)
    ensures EventOk(sys, FinishStep(s, w), c)
  {
    hide Queued, Executing, Balanced, Loaded;
    var n := FinishStep(s, w);
    if n != s {
      forall v | 0 <= v < |s.workers| && Drains(s.workers[v], c) ensures Drains(n.workers[v], c) { }
      forall v | 0 <= v < |s.workers| ensures SendsOn(n.workers[v], c) <==> SendsOn(s.workers[v], c) { }
    }
  }

  // ---- the theorem ---------------------------------------------------------------------------

  lemma StepEvents(sys: System, s: State, a: Action, c: nat)
    requires Control(sys, s) && sys.Valid() && EventOk(sys, s, c) && Covered(sys, s, c)
    ensures EventOk(sys, Step(sys, s, a), c)
  {
    hide Control, Executing, Queued, Conserved, Complete;
    match a
    case Main => MainEvents(sys, s, c);
    case Take(w) => TakeEvents(sys, s, w, c);
    case Fire(w, e, value) => FireEvents(sys, s, w, e, value, c);
    case Tick(w, e, value) => TickStepEvents(sys, s, w, e, value, c);
    case Deliver(w) => DeliverEvents(sys, s, w, c);
    case EndSend(w) => EndSendEvents(sys, s, w, c);
    case Finish(w) => FinishEvents(sys, s, w, c);
    case _ =>
  }

  /** In this run the timeout handler never answers that the scheduler is to go on. */
  predicate NeverGoesOn(acts: seq<Action>) { forall i :: 0 <= i < |acts| ==> acts[i] != TimedOut(true) }

  lemma {:induction false} RunComplete(sys: System, clock: int, threads: nat, acts: seq<Action>)
    requires NeverGoesOn(acts)
    ensures var s := Run(sys, Init(sys, clock, threads), acts); Complete(sys, s.pc, s.done)
  {
    hide Control, Step, Complete;
    var s0 := Init(sys, clock, threads);
    if acts == [] {
      InitComplete(sys, clock, threads);
    } else {
      var before := acts[..|acts| - 1];
      RunComplete(sys, clock, threads, before);
      RunControl(sys, clock, threads, before);
      StepComplete(sys, Run(sys, s0, before), acts[|acts| - 1]);
    }
  }

  lemma InitComplete(sys: System, clock: int, threads: nat)
    ensures Complete(sys, Init(sys, clock, threads).pc, Init(sys, clock, threads).done)
  {
  }

  lemma InitEvents(sys: System, clock: int, threads: nat, c: nat)
    requires c < |sys.conns| && sys.conns[c].kind == Events
    ensures EventOk(sys, Init(sys, clock, threads), c)
  {
    assert Tokens([]) == [];
  }

  lemma {:induction false} RunEvents(sys: System, clock: int, threads: nat, acts: seq<Action>, c: nat)
    requires sys.Valid() && c < |sys.conns| && sys.conns[c].kind == Events
    requires sys.conns[c].SameRate() ==> NeverGoesOn(acts)
    ensures EventOk(sys, Run(sys, Init(sys, clock, threads), acts), c)
  {
    hide Control, Step, Complete, EventOk, Init;
    if acts == [] {
      InitEvents(sys, clock, threads, c);
    } else {
      var before := acts[..|acts| - 1];
      RunEvents(sys, clock, threads, before, c);
      RunControl(sys, clock, threads, before);
      if sys.conns[c].SameRate() { RunComplete(sys, clock, threads, before); }
      StepEvents(sys, Run(sys, Init(sys, clock, threads), before), acts[|acts| - 1], c);
    }
  }

  /** The events fired, one by one: those delivered, then the rest of extern, middle and intern. */
  ghost predicate Carried(l: Link, n: nat, fired: seq<Token>)
    requires l.EventLink?
  {
    && n <= |l.cells.extern| && |l.delivered| <= |fired|
    && (forall j :: 0 <= j < |l.delivered| ==> l.delivered[j].token == fired[j])
    && fired[|l.delivered|..] == l.cells.extern[n..] + l.cells.middle + l.cells.intern
  }

  lemma BalancedFor(l: Link, workers: seq<Worker>, c: nat) returns (n: nat)
    requires l.EventLink? && Conserved(l, workers, c)
    ensures Balanced(l, n)
  {
    hide Balanced;
    if w :| 0 <= w < |workers| && SendsOn(workers[w], c) { n := workers[w].loop.next; } else { n := 0; }
  }

  lemma BalancedCarries(l: Link, n: nat)
    requires l.EventLink? && Balanced(l, n)
    ensures Carried(l, n, l.fired)
  {
    var ts, rest := Tokens(l.delivered), l.cells.(extern := l.cells.extern[n..]).Content();
    assert l.fired[..|ts|] == ts && l.fired[|ts|..] == rest;
    assert forall j :: 0 <= j < |ts| ==> l.fired[j] == ts[j] == l.delivered[j].token;
  }

  /**
   * Nothing fired is lost, duplicated or reordered: in every reachable state the events that the
   * run has fired are those delivered, then the rest of extern, then middle, then intern.  Between its instances the sink
   * leaves nothing behind in extern, so the next switch throws nothing away.
   */
  lemma NothingLost(sys: System, clock: int, threads: nat, acts: seq<Action>, c: nat) returns (n: nat)
    requires sys.Valid() && c < |sys.conns| && sys.conns[c].kind == Events
    requires sys.conns[c].SameRate() ==> NeverGoesOn(acts)
    ensures var s := Run(sys, Init(sys, clock, threads), acts);
      && c < |s.links| && s.links[c].EventLink? && Conserved(s.links[c], s.workers, c)
      && s.links[c].fired == Shots(sys, Init(sys, clock, threads), acts, c)
      && Carried(s.links[c], n, Shots(sys, Init(sys, clock, threads), acts, c))
      && (sys.conns[c].passive !in Busy(s) && sys.conns[c].passive !in Held(s.pc, s.done) ==>
            s.links[c].cells.extern == [] && Balanced(s.links[c], 0))
  {
    hide Control, Init, Queued, Executing, Run, Balanced, Shots;
    RunEvents(sys, clock, threads, acts, c);
    RunControl(sys, clock, threads, acts);
    FiredAsShot(sys, clock, threads, acts, c);
    var s := Run(sys, Init(sys, clock, threads), acts);
    if sys.conns[c].passive !in Executing(s.workers) { NobodyDrains(sys, s, c); }
    n := BalancedFor(s.links[c], s.workers, c);
    BalancedCarries(s.links[c], n);
  }
}
