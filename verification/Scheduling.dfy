/**
 * cycle_control, its periodic tasks, the thread pool's workers and the cross-region connections
 * as one state machine.  Every step is one action of one thread: the main thread inside work() or
 * wait_for_current_tasks(), or a worker inside periodic_task::operator().  A run is any sequence
 * of actions; an action that is not possible in a state leaves that state as it is, so the
 * sequences stand for all interleavings.
 *
 * A timed wait either finds the task done or times out, and the timeout handler answers with a
 * boolean; both are choices of the environment.  Cycle stamps on jobs, tokens, deliveries and
 * pulls, the tokens fired and delivered so far and the log are history: no step looks at them.
 */
module Scheduling {
  import opened ConnectionBuffers

  // ---- the fixed part: groups of tasks and connections ---------------------------------------

  datatype Rate = Fast | Medium | Slow

  /** Tick lengths in units of min_tick_length, the amount by which work() advances the clock. */
  function Period(r: Rate): (p: int)
    ensures p > 0
  {
    match r
    case Fast => 1
    case Medium => 10
    case Slow => 100
  }

  predicate Due(r: Rate, now: int) { now % Period(r) == 0 }

  /** A task is known by its group and its place in the group's vector. */
  datatype Task = Task(rate: Rate, index: nat)

  datatype Groups<T> = Groups(fast: T, medium: T, slow: T) {
    function Get(r: Rate): T {
      match r
      case Fast => fast
      case Medium => medium
      case Slow => slow
    }

    function Set(r: Rate, x: T): (g: Groups<T>)
      ensures forall q :: g.Get(q) == if q == r then x else Get(q)
    {
      match r
      case Fast => this.(fast := x)
      case Medium => this.(medium := x)
      case Slow => this.(slow := x)
    }
  }

  lemma SameGroups<T>(g: Groups<T>, h: Groups<T>)
    requires forall q :: g.Get(q) == h.Get(q)
    ensures g == h
  {
    assert g.Get(Fast) == h.Get(Fast) && g.Get(Medium) == h.Get(Medium) && g.Get(Slow) == h.Get(Slow);
  }

  datatype Kind = Events | States

  /** Events: the active end is the source.  States: the active end is the sink. */
  datatype Conn = Conn(active: Task, passive: Task, kind: Kind) {
    function Source(): Task { if kind == Events then active else passive }
    function Sink(): Task { if kind == Events then passive else active }
    predicate SameRate() { active.rate == passive.rate }
  }

  datatype System = System(sizes: Groups<nat>, conns: seq<Conn>) {
    predicate Has(t: Task) { t.index < sizes.Get(t.rate) }

    /** Ends in the same region get no buffer, so every connection here joins two tasks. */
    predicate Valid() {
      forall c :: 0 <= c < |conns| ==>
        Has(conns[c].active) && Has(conns[c].passive) && conns[c].active != conns[c].passive
    }

    /** The connections whose buffer is connected to the work tick of t. */
    function TickedBy(t: Task): (cs: set<nat>)
      ensures forall c: nat :: c in cs <==> c < |conns| && conns[c].passive == t
    {
      set c: nat | c < |conns| && conns[c].passive == t
    }
  }

  // ---- the state -----------------------------------------------------------------------------

  datatype Token = Token(value: int, cycle: int)
  datatype Delivery = Delivery(token: Token, cycle: int)
  datatype Sample = Sample(value: int, number: nat)
  datatype Pulled = Pulled(sample: Sample, cycle: int)

  datatype Link =
    | EventLink(cells: Cells<Token>, fired: seq<Token>, delivered: seq<Delivery>)
    | StateLink(latch: Latch<Sample>, taken: nat, pulls: seq<Pulled>)

  datatype Job = Job(task: Task, cycle: int)

  /** Where the loop of send_events stands; the end of the range is taken when it starts. */
  datatype Loop = Quiet | Sending(conn: nat, next: nat, end: nat)

  /** todo: the buffers whose work tick this instance of the task has not reached yet. */
  datatype Worker = Off | On(job: Job, todo: set<nat>, loop: Loop)

  datatype Assertion = LeftOver | NotDone

  /** Where the main thread is. */
  datatype Pc =
    | Idle
    | Waiting(rate: Rate, i: nat, clean: bool)
    | Waited(clean: bool)
    | Entering(now: int, rate: Rate)
    | Checking(now: int, rate: Rate, i: nat)
    | Asking(now: int, rate: Rate, i: nat)
    | Rechecking(now: int, rate: Rate, i: nat)
    | Switching(now: int, rate: Rate, i: nat)
    | Ticking(now: int, rate: Rate, i: nat, k: nat)
    | Dispatching(now: int, rate: Rate, i: nat)
    | Failed(why: Assertion)

  datatype Entry = Switch(task: Task, cycle: int) | Dispatch(task: Task, cycle: int)

  /**
   * flags: the tasks whose work_to_do is set.  done: the three done_tasks vectors.
   * calm: the current call of work() follows a wait in which no task timed out.
   */
  datatype State = State(
    clock: int, keepWorking: bool, pc: Pc, calm: bool, flags: set<Task>, done: Groups<seq<Task>>,
    queue: seq<Job>, workers: seq<Worker>, links: seq<Link>, log: seq<Entry>)

  function NewLink(c: Conn): Link {
    if c.kind == Events then EventLink(Cells([], [], [], false), [], [])
    else StateLink(Latch(Sample(0, 0), Sample(0, 0), Sample(0, 0)), 0, [])
  }

  function Init(sys: System, clock: int, threads: nat): State {
    State(clock, true, Idle, false, {}, Groups([], [], []), [], seq(threads, _ => Off),
          seq(|sys.conns|, c requires 0 <= c < |sys.conns| => NewLink(sys.conns[c])), [])
  }

  // ---- the main thread -----------------------------------------------------------------------

  datatype Action =
    | Main                                      // the main thread's next action
    | Call                                      // work() is called
    | WaitCall                                  // wait_for_current_tasks() is called
    | TimedOut(goOn: bool)                      // the handler answers inside run_periodic_tasks
    | WaitTimedOut(goOn: bool)                  // a timed wait expires, and the handler's answer
    | SetKeepWorking(on: bool)                  // start() or stop()
    | Take(w: nat)
    | Fire(w: nat, conn: nat, value: int)
    | Tick(w: nat, conn: nat, value: int)
    | Deliver(w: nat)
    | EndSend(w: nat)
    | Pull(w: nat, conn: nat)
    | Finish(w: nat)

  function AfterGroup(now: int, r: Rate): Pc {
    match r
    case Fast => Entering(now, Medium)
    case Medium => Entering(now, Slow)
    case Slow => Idle
  }

  function AfterWait(r: Rate, clean: bool): Pc {
    match r
    case Slow => Waiting(Medium, 0, clean)
    case Medium => Waiting(Fast, 0, clean)
    case Fast => Waited(clean)
  }

  /** What the switch tick of task t does to one connection, as construct_buffer wired it. */
  function OnSwitch(c: Conn, l: Link, t: Task): Link {
    if c.active == t then
      match l
      case EventLink(b, _, _) => l.(cells := if c.SameRate() then SwitchActivePassive(b) else SwitchActive(b))
      case StateLink(b, _, _) => l.(latch := if c.SameRate() then LatchActivePassive(b) else LatchActive(b))
    else if c.passive == t && !c.SameRate() then
      match l
      case EventLink(b, _, _) => l.(cells := SwitchPassive(b))
      case StateLink(b, _, _) => l.(latch := LatchPassive(b))
    else l
  }

  function MarkDone(s: State, r: Rate, i: nat): State {
    s.(done := s.done.Set(r, s.done.Get(r) + [Task(r, i)]))
  }

  /** wait_until_done, for task i of group r. */
  function WaitStep(sys: System, s: State, r: Rate, i: nat, clean: bool): State {
    if !Due(r, s.clock) || i >= sys.sizes.Get(r) then s.(pc := AfterWait(r, clean))
    else if Task(r, i) in s.flags then s
    else s.(pc := Waiting(r, i + 1, clean))
  }

  /** run_if_due, and the assertion that done_tasks is empty. */
  function EnterStep(s: State, now: int, r: Rate): State {
    if !Due(r, now) then s.(pc := AfterGroup(now, r))
    else if s.done.Get(r) != [] then s.(pc := Failed(LeftOver))
    else s.(pc := Checking(now, r, 0))
  }

  /** The first loop of run_periodic_tasks: the first look at task i. */
  function CheckStep(sys: System, s: State, now: int, r: Rate, i: nat): State {
    if i >= sys.sizes.Get(r) then s.(pc := Switching(now, r, 0))
    else if Task(r, i) in s.flags then s.(pc := Asking(now, r, i))
    else MarkDone(s, r, i).(pc := Checking(now, r, i + 1))
  }

  /** The second look at task i, after the handler has answered. */
  function RecheckStep(s: State, now: int, r: Rate, i: nat): State {
    (if Task(r, i) in s.flags then s else MarkDone(s, r, i)).(pc := Checking(now, r, i + 1))
  }

  /** The second loop: the flag of task i of done_tasks. */
  function SwitchStep(s: State, now: int, r: Rate, i: nat): State {
    if i >= |s.done.Get(r)| then s.(pc := Dispatching(now, r, 0))
    else
      var t := s.done.Get(r)[i];
      if t in s.flags then s.(pc := Failed(NotDone))
      else s.(flags := s.flags + {t}, log := s.log + [Switch(t, now)], pc := Ticking(now, r, i, 0))
  }

  /** Its switch tick reaches connection k. */
  function SwitchTickStep(sys: System, s: State, now: int, r: Rate, i: nat, k: nat): State {
    if k >= |sys.conns| || k >= |s.links| || i >= |s.done.Get(r)| then s.(pc := Switching(now, r, i + 1))
    else s.(links := s.links[k := OnSwitch(sys.conns[k], s.links[k], s.done.Get(r)[i])],
            pc := Ticking(now, r, i, k + 1))
  }

  /** The third loop: add_task for task i of done_tasks; then done_tasks is cleared. */
  function DispatchStep(s: State, now: int, r: Rate, i: nat): State {
    if i >= |s.done.Get(r)| then s.(done := s.done.Set(r, []), pc := AfterGroup(now, r))
    else
      var t := s.done.Get(r)[i];
      s.(queue := s.queue + [Job(t, now)], log := s.log + [Dispatch(t, now)], pc := Dispatching(now, r, i + 1))
  }

  function MainStep(sys: System, s: State): State {
    match s.pc
    case Waiting(r, i, clean) => WaitStep(sys, s, r, i, clean)
    case Entering(now, r) => EnterStep(s, now, r)
    case Checking(now, r, i) => CheckStep(sys, s, now, r, i)
    case Rechecking(now, r, i) => RecheckStep(s, now, r, i)
    case Switching(now, r, i) => SwitchStep(s, now, r, i)
    case Ticking(now, r, i, k) => SwitchTickStep(sys, s, now, r, i, k)
    case Dispatching(now, r, i) => DispatchStep(s, now, r, i)
    case _ => s
  }

  // ---- the workers ---------------------------------------------------------------------------

  /** What belongs to the main thread is the same, and so are the numbers of threads and links. */
  predicate SameMain(s: State, n: State) {
    && n.pc == s.pc && n.done == s.done && n.clock == s.clock && n.calm == s.calm && n.log == s.log
    && n.keepWorking == s.keepWorking && |n.workers| == |s.workers| && |n.links| == |s.links|
  }

  predicate Active(s: State, w: nat) { w < |s.workers| && s.workers[w].On? }

  /** Worker w runs a task at the given end of connection c. */
  predicate AtConn(sys: System, s: State, w: nat, c: nat, kind: Kind) {
    Active(s, w) && c < |sys.conns| && c < |s.links| && sys.conns[c].kind == kind
    && (kind == Events <==> s.links[c].EventLink?)
  }

  function SetWorker(s: State, w: nat, x: Worker): State
    requires w < |s.workers|
  {
    s.(workers := s.workers[w := x])
  }

  function SetLink(s: State, c: nat, l: Link): State
    requires c < |s.links|
  {
    s.(links := s.links[c := l])
  }

  function TakeStep(sys: System, s: State, w: nat): (n: State)
    ensures SameMain(s, n)
  {
    if w < |s.workers| && s.workers[w].Off? && s.queue != [] then
      var j := s.queue[0];
      SetWorker(s, w, On(j, sys.TickedBy(j.task), Quiet)).(queue := s.queue[1..])
    else s
  }

  function FireStep(sys: System, s: State, w: nat, c: nat, value: int): (n: State)
    ensures SameMain(s, n)
  {
    if AtConn(sys, s, w, c, Events) && sys.conns[c].active == s.workers[w].job.task then
      var l, token := s.links[c], Token(value, s.workers[w].job.cycle);
      SetLink(s, c, l.(cells := l.cells.(intern := l.cells.intern + [token]), fired := l.fired + [token]))
    else s
  }

  /** The work tick reaches an event buffer, which starts to send. */
  function StartStep(sys: System, s: State, w: nat, c: nat): (n: State)
    ensures SameMain(s, n)
  {
    if AtConn(sys, s, w, c, Events) && c in s.workers[w].todo && s.workers[w].loop.Quiet? then
      var x := s.workers[w];
      SetWorker(s, w, x.(todo := x.todo - {c}, loop := Sending(c, 0, |s.links[c].cells.extern|)))
    else s
  }

  /** The work tick reaches a state buffer, which pulls the source's value. */
  function SampleStep(sys: System, s: State, w: nat, c: nat, value: int): (n: State)
    ensures SameMain(s, n)
  {
    if AtConn(sys, s, w, c, States) && c in s.workers[w].todo && s.workers[w].loop.Quiet? then
      var x, l := s.workers[w], s.links[c];
      SetLink(SetWorker(s, w, x.(todo := x.todo - {c})), c,
              l.(latch := l.latch.(intern := Sample(value, l.taken + 1)), taken := l.taken + 1))
    else s
  }

  function TickStep(sys: System, s: State, w: nat, c: nat, value: int): (n: State)
    ensures SameMain(s, n)
  {
    if c < |sys.conns| && sys.conns[c].kind == Events then StartStep(sys, s, w, c) else SampleStep(sys, s, w, c, value)
  }

  predicate InLoop(sys: System, s: State, w: nat) {
    Active(s, w) && s.workers[w].loop.Sending? && AtConn(sys, s, w, s.workers[w].loop.conn, Events)
  }

  function DeliverStep(sys: System, s: State, w: nat): (n: State)
    ensures SameMain(s, n)
  {
    if InLoop(sys, s, w) then
      var x := s.workers[w];
      var i, l := x.loop.next, s.links[x.loop.conn];
      if i < x.loop.end && i < |l.cells.extern| then
        SetLink(SetWorker(s, w, x.(loop := x.loop.(next := i + 1))), x.loop.conn,
                l.(delivered := l.delivered + [Delivery(l.cells.extern[i], x.job.cycle)]))
      else s
    else s
  }

  function EndSendStep(sys: System, s: State, w: nat): (n: State)
    ensures SameMain(s, n)
  {
    if InLoop(sys, s, w) && s.workers[w].loop.next >= s.workers[w].loop.end then
      var x := s.workers[w];
      var l := s.links[x.loop.conn];
      SetLink(SetWorker(s, w, x.(loop := Quiet)), x.loop.conn, l.(cells := l.cells.(extern := [])))
    else s
  }

  function PullStep(sys: System, s: State, w: nat, c: nat): (n: State)
    ensures SameMain(s, n)
  {
    if AtConn(sys, s, w, c, States) && sys.conns[c].active == s.workers[w].job.task then
      var l := s.links[c];
      SetLink(s, c, l.(pulls := l.pulls + [Pulled(l.latch.extern, s.workers[w].job.cycle)]))
    else s
  }

  function FinishStep(s: State, w: nat): (n: State)
    ensures SameMain(s, n)
  {
    if Active(s, w) && s.workers[w].todo == {} && s.workers[w].loop.Quiet? then
      SetWorker(s, w, Off).(flags := s.flags - {s.workers[w].job.task})
    else s
  }

  // ---- runs ----------------------------------------------------------------------------------

  function Step(sys: System, s: State, a: Action): State {
    match a
    case Main => MainStep(sys, s)
    case Call =>
      if s.pc.Idle? || s.pc.Waited? then
        s.(pc := Entering(s.clock, Fast), clock := s.clock + 1, calm := s.pc.Waited? && s.pc.clean)
      else s
    case WaitCall => if s.pc.Idle? then s.(pc := Waiting(Slow, 0, true)) else s
    case TimedOut(goOn) =>
      if s.pc.Asking? then
        if goOn then s.(pc := Rechecking(s.pc.now, s.pc.rate, s.pc.i)) else s.(keepWorking := false, pc := Idle)
      else s
    case WaitTimedOut(goOn) =>
      if s.pc.Waiting? && Due(s.pc.rate, s.clock) && s.pc.i < sys.sizes.Get(s.pc.rate) && Task(s.pc.rate, s.pc.i) in s.flags then
        if goOn then s.(pc := Waiting(s.pc.rate, s.pc.i + 1, false)) else s.(keepWorking := false, pc := Waited(false))
      else s
    case SetKeepWorking(on) => s.(keepWorking := on)
    case Take(w) => TakeStep(sys, s, w)
    case Fire(w, c, value) => FireStep(sys, s, w, c, value)
    case Tick(w, c, value) => TickStep(sys, s, w, c, value)
    case Deliver(w) => DeliverStep(sys, s, w)
    case EndSend(w) => EndSendStep(sys, s, w)
    case Pull(w, c) => PullStep(sys, s, w, c)
    case Finish(w) => FinishStep(s, w)
  }

  function Run(sys: System, s: State, acts: seq<Action>): State {
    if acts == [] then s else Step(sys, Run(sys, s, acts[..|acts| - 1]), acts[|acts| - 1])
  }
}
