/**
 * Who touches which buffer cell, and when.  Each end of a connection has one cell that its worker
 * uses; the main thread touches it in a switch tick.  The two never meet when the rates differ,
 * nor when the timeout handler never goes on.
 */
module SchedulerOwnership {
  import opened Scheduling
  import opened SchedulerControl
  import opened SchedulerEvents

  datatype Cell = Intern | Extern

  /** The task whose workers use the cell. */
  function User(c: Conn, x: Cell): Task { if x == Intern then c.Source() else c.Sink() }

  /** The cells that the switch tick of t touches. */
  predicate Touches(c: Conn, t: Task, x: Cell) {
    if c.SameRate() then c.active == t else User(c, x) == t
  }

  /** Two links that agree on everything but cell x. */
  ghost predicate SameBut(l: Link, m: Link, x: Cell) {
    match (l, m)
    case (EventLink(a, _, _), EventLink(b, _, _)) =>
      m == l.(cells := if x == Intern then a.(intern := b.intern) else a.(extern := b.extern))
    case (StateLink(a, _, _), StateLink(b, _, _)) =>
      m == l.(latch := if x == Intern then a.(intern := b.intern) else a.(extern := b.extern))
    case _ => false
  }

  ghost predicate CellKept(l: Link, m: Link, x: Cell) {
    match (l, m)
    case (EventLink(a, _, _), EventLink(b, _, _)) => if x == Intern then a.intern == b.intern else a.extern == b.extern
    case (StateLink(a, _, _), StateLink(b, _, _)) => if x == Intern then a.intern == b.intern else a.extern == b.extern
    case _ => false
  }

  /** A switch tick neither reads nor writes the cells that Touches does not name. */
  lemma SwitchKeepsOff(c: Conn, l: Link, m: Link, t: Task, x: Cell)
    requires !Touches(c, t, x) && SameBut(l, m, x) && (l.EventLink? <==> c.kind == Events)
    ensures SameBut(OnSwitch(c, l, t), OnSwitch(c, m, t), x) && CellKept(l, OnSwitch(c, l, t), x)
  {
  }

  /** n and o, reached from states that differ in cell x of c only, differ there only; n kept it. */
  ghost predicate KeptOff(s: State, n: State, o: State, c: nat, x: Cell) {
    && c < |s.links| == |n.links| == |o.links| && SameBut(n.links[c], o.links[c], x) && CellKept(s.links[c], n.links[c], x)
    && o.(links := n.links) == n && forall e :: 0 <= e < |n.links| && e != c ==> o.links[e] == n.links[e]
  }

  ghost predicate Elsewhere(sys: System, s: State, w: nat, c: nat, m: Link, x: Cell) {
    && LinksOk(sys, s.links) && c < |sys.conns| && SameBut(s.links[c], m, x)
    && (Active(s, w) ==> WorkerOk(sys, s.workers[w]) && s.workers[w].job.task != User(sys.conns[c], x))
  }

  lemma FireKeepsOff(sys: System, s: State, w: nat, e: nat, value: int, c: nat, m: Link, x: Cell)
    requires Elsewhere(sys, s, w, c, m, x)
    ensures KeptOff(s, FireStep(sys, s, w, e, value), FireStep(sys, s.(links := s.links[c := m]), w, e, value), c, x)
  {
  }

  lemma StartKeepsOff(sys: System, s: State, w: nat, e: nat, c: nat, m: Link, x: Cell)
    requires Elsewhere(sys, s, w, c, m, x)
    ensures KeptOff(s, StartStep(sys, s, w, e), StartStep(sys, s.(links := s.links[c := m]), w, e), c, x)
  {
  }

  lemma SampleKeepsOff(sys: System, s: State, w: nat, e: nat, value: int, c: nat, m: Link, x: Cell)
    requires Elsewhere(sys, s, w, c, m, x)
    ensures KeptOff(s, SampleStep(sys, s, w, e, value), SampleStep(sys, s.(links := s.links[c := m]), w, e, value), c, x)
  {
  }

  lemma DeliverKeepsOff(sys: System, s: State, w: nat, c: nat, m: Link, x: Cell)
    requires Elsewhere(sys, s, w, c, m, x)
    ensures KeptOff(s, DeliverStep(sys, s, w), DeliverStep(sys, s.(links := s.links[c := m]), w), c, x)
  {
  }

  lemma EndSendKeepsOff(sys: System, s: State, w: nat, c: nat, m: Link, x: Cell)
    requires Elsewhere(sys, s, w, c, m, x)
    ensures KeptOff(s, EndSendStep(sys, s, w), EndSendStep(sys, s.(links := s.links[c := m]), w), c, x)
  {
  }

  lemma PullKeepsOff(sys: System, s: State, w: nat, e: nat, c: nat, m: Link, x: Cell)
    requires Elsewhere(sys, s, w, c, m, x)
    ensures KeptOff(s, PullStep(sys, s, w, e), PullStep(sys, s.(links := s.links[c := m]), w, e), c, x)
  {
  }

  lemma OtherKeepsOff(sys: System, s: State, w: nat, c: nat, m: Link, x: Cell)
    requires c < |s.links| && SameBut(s.links[c], m, x)
    ensures KeptOff(s, TakeStep(sys, s, w), TakeStep(sys, s.(links := s.links[c := m]), w), c, x)
    ensures KeptOff(s, FinishStep(s, w), FinishStep(s.(links := s.links[c := m]), w), c, x)
  {
  }

  /** A worker neither reads nor writes a cell unless it runs the task that uses the cell. */
  lemma WorkerKeepsOff(sys: System, s: State, a: Action, c: nat, m: Link, x: Cell)
    requires Control(sys, s) && ByWorker(a) && c < |sys.conns| && SameBut(s.links[c], m, x)
    requires Active(s, a.w) ==> s.workers[a.w].job.task != User(sys.conns[c], x)
    ensures KeptOff(s, Step(sys, s, a), Step(sys, s.(links := s.links[c := m]), a), c, x)
  {
    hide PcOk, FlagsOk, Single, SameBut, WorkerOk, KeptOff, TakeStep, FinishStep, FireStep, StartStep, SampleStep, DeliverStep, EndSendStep, PullStep;
    match a
    case Fire(w, e, value) => FireKeepsOff(sys, s, w, e, value, c, m, x);
    case Tick(w, e, value) =>
      StartKeepsOff(sys, s, w, e, c, m, x);
      SampleKeepsOff(sys, s, w, e, value, c, m, x);
    case Deliver(w) => DeliverKeepsOff(sys, s, w, c, m, x);
    case EndSend(w) => EndSendKeepsOff(sys, s, w, c, m, x);
    case Pull(w, e) => PullKeepsOff(sys, s, w, e, c, m, x);
    case Take(w) => OtherKeepsOff(sys, s, w, c, m, x);
    case Finish(w) => OtherKeepsOff(sys, s, w, c, m, x);
    case _ =>
  }

  /**
   * In every run the main thread touches a cell only while the task that uses it has no queued or
   * running instance: always when the rates differ, and for equal rates when the handler never
   * goes on past a task that is not done.
   */
  lemma Owned(sys: System, clock: int, threads: nat, acts: seq<Action>, c: nat, t: Task, x: Cell)
    requires sys.Valid() && c < |sys.conns| && (sys.conns[c].SameRate() ==> NeverGoesOn(acts))
    requires TickAt(sys, Run(sys, Init(sys, clock, threads), acts), c, t) && Touches(sys.conns[c], t, x)
    ensures User(sys.conns[c], x) !in Busy(Run(sys, Init(sys, clock, threads), acts))
  {
    hide JobsOk, LinksOk, Single, Queued, Executing, Groups.Get, Complete, Run, Init;
    var s := Run(sys, Init(sys, clock, threads), acts);
    RunControl(sys, clock, threads, acts);
    assert t in Elems(Held(s.pc, s.done));
    if sys.conns[c].SameRate() {
      RunComplete(sys, clock, threads, acts);
      BothHeld(sys, s, c);
    }
  }
}
