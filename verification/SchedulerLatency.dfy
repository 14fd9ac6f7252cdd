/**
 * When every due task is found done, the cycle in which the sink receives an event is determined
 * by the cycle of the source in which it was fired.
 */
module SchedulerLatency {
  import opened ConnectionBuffers
  import opened Scheduling
  import opened SchedulerControl
  import opened SchedulerEvents
  import opened SchedulerTiming

  /** An event fired in the source's cycle s reaches the sink in its cycle d. */
  predicate InTime(c: Conn, s: int, d: int) {
    var ts, td := Period(c.active.rate), Period(c.passive.rate);
    if ts == td then d == s + ts
    else if ts < td then Due(c.passive.rate, d) && d - td < s + ts <= d
    else d == s + ts + td
  }

  lemma InTimeBounds(c: Conn, s: int, d: int)
    requires InTime(c, s, d)
    ensures s + Period(c.active.rate) <= d <= s + Period(c.active.rate) + Period(c.passive.rate)
    ensures c.SameRate() ==> d == s + Period(c.active.rate)
  {
  }

  // ---- the ages of what the buffers hold -----------------------------------------------------

  /** la: the last turn of the active end; lx: the last turn of the end that loads extern. */
  ghost predicate Aged(c: Conn, b: Cells<Token>, la: int, lx: int) {
    var ts, td := Period(c.active.rate), Period(c.passive.rate);
    && (forall x :: x in b.intern ==> x.cycle == la)
    && (forall x :: x in b.middle ==>
          Due(c.active.rate, x.cycle) && x.cycle + ts <= la && (if ts < td then lx < x.cycle + ts else lx <= x.cycle + ts))
    && (forall x :: x in b.extern ==> InTime(c, x.cycle, lx))
  }

  lemma DueLater(r: Rate, x: int)
    ensures Due(r, x) <==> Due(r, x + Period(r))
  {
  }

  lemma ActiveAges(c: Conn, b: Cells<Token>, now: int, lx: int)
    requires Due(c.active.rate, now) && Aged(c, b, now - Period(c.active.rate), lx) && b.Fresh()
    requires if Before(c.active.rate, c.passive.rate) then lx < now else lx <= now
    ensures Aged(c, SwitchActive(b), now, lx)
  {
    hide Due, InTime;
    DueLater(c.active.rate, now - Period(c.active.rate));
  }

  /** A slow source's cycles are also due cycles of a fast sink. */
  lemma Aligned(c: Conn, s: int, now: int)
    requires Before(c.passive.rate, c.active.rate) && Due(c.active.rate, s) && Due(c.passive.rate, now)
    requires now - Period(c.passive.rate) <= s + Period(c.active.rate) < now
    ensures now == s + Period(c.active.rate) + Period(c.passive.rate)
  {
    if c.passive.rate == Medium { NextTen(s, now); }
  }

  lemma NextTen(s: int, now: int)
    requires s % 100 == 0 && now % 10 == 0 && now - 10 <= s + 100 < now
    ensures now == s + 110
  {
    assert s == s / 100 * 100 && now == now / 10 * 10;
  }

  lemma PassiveAges(c: Conn, b: Cells<Token>, la: int, now: int)
    requires Due(c.passive.rate, now) && !c.SameRate() && Aged(c, b, la, now - Period(c.passive.rate))
    requires if Before(c.active.rate, c.passive.rate) then la <= now else la < now
    ensures Aged(c, SwitchPassive(b), la, now)
  {
    hide Due;
    forall x | x in b.middle ensures InTime(c, x.cycle, now) {
      if Before(c.passive.rate, c.active.rate) { Aligned(c, x.cycle, now); }
    }
  }

  lemma DirectAges(c: Conn, b: Cells<Token>, now: int)
    requires c.SameRate() && b.middle == [] && b.extern == []
    requires Aged(c, b, now - Period(c.active.rate), now - Period(c.active.rate))
    ensures Aged(c, SwitchActivePassive(b), now, now)
  {
    hide Due;
  }

  // ---- every step keeps the ages -------------------------------------------------------------

  ghost predicate LateOk(sys: System, s: State, c: nat) {
    && c < |sys.conns| && c < |s.links| && s.links[c].EventLink?
    && Aged(sys.conns[c], s.links[c].cells, Last(s, sys.conns[c].active, c), Last(s, Loader(sys.conns[c]), c))
    && forall d :: d in s.links[c].delivered ==> InTime(sys.conns[c], d.token.cycle, d.cycle)
  }

  /** What a step may rely on in a run without timeouts. */
  ghost predicate Orderly(sys: System, s: State, c: nat) {
    && sys.Valid() && Control(sys, s) && TimeOk(s) && Complete(sys, s.pc, s.done) && Stamped(s)
    && EventOk(sys, s, c)
  }

  /** At a switch tick faster groups have had their turn in this cycle, slower ones have not. */
  lemma OrderAt(sys: System, s: State, t: Task, u: Task, c: nat)
    requires Control(sys, s) && TimeOk(s) && TickAt(sys, s, c, t) && u.rate != t.rate
    ensures if Before(u.rate, t.rate) then Last(s, u, c) <= s.pc.now else Last(s, u, c) < s.pc.now
  {
    hide JobsOk, LinksOk, Single, FlagsOk, Groups.Get, Prev, Due;
    PrevFacts(u.rate, s.pc.now);
    PrevFacts(u.rate, s.pc.now + 1);
  }

  lemma TickTime(sys: System, s: State, t: Task, c: nat)
    requires Control(sys, s) && TimeOk(s) && TickAt(sys, s, c, t)
    ensures t.rate == s.pc.rate && Due(t.rate, s.pc.now)
  {
    hide JobsOk, LinksOk, Single, FlagsOk, Groups.Get, Due;
  }

  lemma ActiveLate(sys: System, s: State, c: nat)
    requires Orderly(sys, s, c) && LateOk(sys, s, c) && TickAt(sys, s, c, sys.conns[c].active) && !sys.conns[c].SameRate()
    ensures LateOk(sys, MainStep(sys, s), c)
  {
    hide Control, TimeOk, Complete, Stamped, Last, Aged, Due, InTime, Groups.Get, Conserved, Expected;
    var k := sys.conns[c];
    LastMoves(sys, s, Main, k.active, c);
    LastMoves(sys, s, Main, k.passive, c);
    TickTime(sys, s, k.active, c);
    OrderAt(sys, s, k.active, k.passive, c);
    ActiveAges(k, s.links[c].cells, s.pc.now, Last(s, k.passive, c));
  }

  lemma PassiveLate(sys: System, s: State, c: nat)
    requires Orderly(sys, s, c) && LateOk(sys, s, c) && TickAt(sys, s, c, sys.conns[c].passive) && !sys.conns[c].SameRate()
    ensures LateOk(sys, MainStep(sys, s), c)
  {
    hide Control, TimeOk, Complete, Stamped, Last, Aged, Due, InTime, Groups.Get, Conserved, Expected;
    var k := sys.conns[c];
    LastMoves(sys, s, Main, k.active, c);
    LastMoves(sys, s, Main, k.passive, c);
    TickTime(sys, s, k.passive, c);
    OrderAt(sys, s, k.passive, k.active, c);
    PassiveAges(k, s.links[c].cells, Last(s, k.active, c), s.pc.now);
  }

  /** Before a direct switch the sink has emptied extern. */
  lemma DirectDrained(sys: System, s: State, c: nat)
    requires Orderly(sys, s, c) && TickAt(sys, s, c, sys.conns[c].active) && sys.conns[c].SameRate()
    ensures s.links[c].cells.extern == []
  {
    hide JobsOk, LinksOk, Single, FlagsOk, Conserved, Queued, Executing, Groups.Get, Complete, TimeOk, Stamped;
    BothHeld(sys, s, c);
    NobodyDrains(sys, s, c);
    var h, i := s.done.Get(s.pc.rate), s.pc.i;
    assert h[i] !in h[..i];
  }

  lemma DirectLate(sys: System, s: State, c: nat)
    requires Orderly(sys, s, c) && LateOk(sys, s, c) && TickAt(sys, s, c, sys.conns[c].active) && sys.conns[c].SameRate()
    ensures LateOk(sys, MainStep(sys, s), c)
  {
    hide Control, TimeOk, Complete, Stamped, Last, Aged, Due, InTime, Groups.Get, Conserved, Expected;
    LastMoves(sys, s, Main, sys.conns[c].active, c);
    DirectDrained(sys, s, c);
    DirectAges(sys.conns[c], s.links[c].cells, s.pc.now);
  }

  lemma MainLate(sys: System, s: State, c: nat)
    requires Orderly(sys, s, c) && LateOk(sys, s, c)
    ensures LateOk(sys, MainStep(sys, s), c)
  {
    hide TimeOk, Complete, Stamped, Last, Aged, InTime, Conserved, Expected, JobsOk, Single, FlagsOk, Groups.Get, Groups.Set;
    var k := sys.conns[c];
    if TickAt(sys, s, c, k.active) {
      if k.SameRate() { DirectLate(sys, s, c); } else { ActiveLate(sys, s, c); }
    } else if TickAt(sys, s, c, k.passive) && !k.SameRate() {
      PassiveLate(sys, s, c);
    } else {
      LastMoves(sys, s, Main, k.active, c);
      LastMoves(sys, s, Main, Loader(k), c);
    }
  }

  // ---- workers -------------------------------------------------------------------------------

  /** An instance at either end carries the cycle of that end's last turn. */
  lemma InstanceCycle(sys: System, s: State, w: nat, t: Task, u: Task, c: nat)
    requires Control(sys, s) && Complete(sys, s.pc, s.done) && Stamped(s) && Active(s, w)
    requires s.workers[w].job.task == t && sys.Has(u) && u.rate == t.rate
    ensures s.workers[w].job.cycle == Last(s, u, c)
  {
    hide Control, Complete, Last, JobLast;
    JobBusy(sys, s, s.workers[w].job);
    BusyLast(sys, s, t, u, c);
  }

  lemma FireLate(sys: System, s: State, w: nat, e: nat, value: int, c: nat)
    requires Orderly(sys, s, c) && LateOk(sys, s, c)
    ensures LateOk(sys, FireStep(sys, s, w, e, value), c)
  {
    hide Control, Complete, TimeOk, Stamped, EventOk, Prev, InTime, Switched, Groups.Get;
    var n, k := FireStep(sys, s, w, e, value), sys.conns[c];
    if n.links[c] != s.links[c] {
      InstanceCycle(sys, s, w, k.active, k.active, c);
    }
  }

  lemma DeliverLate(sys: System, s: State, w: nat, c: nat)
    requires Orderly(sys, s, c) && LateOk(sys, s, c)
    ensures LateOk(sys, DeliverStep(sys, s, w), c)
  {
    hide FlagsOk, PcOk, Single, Complete, TimeOk, Stamped, EventOk, Prev, InTime, Switched, Groups.Get;
    var n, k := DeliverStep(sys, s, w), sys.conns[c];
    if n.links[c] != s.links[c] {
      assert WorkerOk(sys, s.workers[w]);
      InstanceCycle(sys, s, w, k.passive, Loader(k), c);
    }
  }

  lemma StepLate(sys: System, s: State, a: Action, c: nat)
    requires Orderly(sys, s, c) && LateOk(sys, s, c) && !a.TimedOut?
    ensures LateOk(sys, Step(sys, s, a), c)
  {
    hide Control, Complete, TimeOk, Stamped, EventOk, Last, InTime, Groups.Get, MainStep;
    if a.Main? {
      MainLate(sys, s, c);
    } else if a.Fire? {
      FireLate(sys, s, a.w, a.conn, a.value, c);
    } else if a.Deliver? {
      DeliverLate(sys, s, a.w, c);
    } else {
      LastMoves(sys, s, a, sys.conns[c].active, c);
      LastMoves(sys, s, a, Loader(sys.conns[c]), c);
    }
  }

  // ---- the theorem ---------------------------------------------------------------------------

  lemma InitOrderly(sys: System, clock: int, threads: nat, c: nat)
    requires sys.Valid() && c < |sys.conns| && sys.conns[c].kind == Events
    ensures Orderly(sys, Init(sys, clock, threads), c) && LateOk(sys, Init(sys, clock, threads), c)
  {
    hide Prev, Control, EventOk, Complete;
    InitControl(sys, clock, threads);
    InitComplete(sys, clock, threads);
    InitEvents(sys, clock, threads, c);
  }

  lemma {:induction false} RunLate(sys: System, clock: int, threads: nat, acts: seq<Action>, c: nat)
    requires sys.Valid() && c < |sys.conns| && sys.conns[c].kind == Events && Punctual(acts)
    ensures var s := Run(sys, Init(sys, clock, threads), acts); Orderly(sys, s, c) && LateOk(sys, s, c)
  {
    hide Control, Complete, TimeOk, Stamped, EventOk, LateOk, Step, Init;
    if acts == [] {
      InitOrderly(sys, clock, threads, c);
    } else {
      RunLate(sys, clock, threads, acts[..|acts| - 1], c);
      var s, a := Run(sys, Init(sys, clock, threads), acts[..|acts| - 1]), acts[|acts| - 1];
      assert !a.TimedOut?;
      StepControl(sys, s, a);
      StepTime(sys, s, a);
      StepComplete(sys, s, a);
      StepStamped(sys, s, a);
      StepEvents(sys, s, a, c);
      StepLate(sys, s, a, c);
    }
  }

  // ---- nothing waits beyond its cycle --------------------------------------------------------

  /** The cycle of the sink for an event fired in the source's cycle s: its first turn that gets it. */
  function Arrival(c: Conn, s: int): int {
    var ts, td := Period(c.active.rate), Period(c.passive.rate);
    if ts == td then s + ts else if ts < td then Prev(c.passive.rate, s + ts) + td else s + ts + td
  }

  lemma GapOf(p: int, a: int, b: int)
    requires (p == 1 || p == 10 || p == 100) && -p < p * a - p * b < p
    ensures a == b
  {
    if p == 1 {
    } else if p == 10 {
      assert -10 < 10 * a - 10 * b < 10;
    } else {
      assert -100 < 100 * a - 100 * b < 100;
    }
  }

  /** Due cycles of a rate are a period apart. */
  lemma DueGap(r: Rate, x: int, y: int)
    requires Due(r, x) && Due(r, y) && x - Period(r) < y < x + Period(r)
    ensures x == y
  {
    var p := Period(r);
    assert x % p == 0 && y % p == 0;
    assert x == p * (x / p) && y == p * (y / p);
    GapOf(p, x / p, y / p);
  }

  lemma ArrivalIff(c: Conn, s: int, d: int)
    ensures InTime(c, s, d) <==> d == Arrival(c, s)
  {
    hide Due, Prev;
    var r, x := c.passive.rate, s + Period(c.active.rate);
    PrevFacts(r, x);
    DuePrev(r, x);
    if InTime(c, s, d) && Before(c.active.rate, r) { DueGap(r, d, Prev(r, x) + Period(r)); }
  }

  lemma DuePrev(r: Rate, x: int)
    ensures Due(r, Prev(r, x)) && Due(r, Prev(r, x) + Period(r))
  {
    hide Prev, Period;
    PrevFacts(r, x);
    DueLater(r, Prev(r, x));
  }

  /** The turn of one end is never more than a period of the other ahead of it. */
  lemma NotFarAhead(s: State, t: Task, u: Task, c: nat)
    requires TimeOk(s)
    ensures Last(s, u, c) <= Last(s, t, c) + Period(t.rate)
  {
    hide Prev, Due, Turned, Period;
    PrevFacts(t.rate, s.clock);
    PrevFacts(u.rate, s.clock);
    if InCycle(s.pc) {
      PrevFacts(t.rate, s.pc.now);
      PrevFacts(u.rate, s.pc.now);
    }
  }

  /** What lies in the buffers is not late: the sink's turn after its cycle has not come. */
  lemma WaitingInTime(c: Conn, b: Cells<Token>, la: int, lx: int, x: Token)
    requires Aged(c, b, la, lx) && x in b.Content() && (c.SameRate() ==> b.middle == [] && lx == la)
    requires lx <= la + Period(c.active.rate)
    ensures lx <= Arrival(c, x.cycle)
  {
    hide Due, Prev;
    ArrivalIff(c, x.cycle, lx);
    PrevFacts(c.passive.rate, x.cycle + Period(c.active.rate));
    assert x in b.extern || x in b.middle || x in b.intern;
  }

  /** An event that is not among the delivered ones lies in a buffer. */
  lemma FiredSomewhere(l: Link, workers: seq<Worker>, c: nat, j: nat)
    requires l.EventLink? && Conserved(l, workers, c) && j < |l.fired|
    ensures if j < |l.delivered| then l.delivered[j].token == l.fired[j] else l.fired[j] in l.cells.Content()
  {
    hide Cells.Content;
    if w :| 0 <= w < |workers| && SendsOn(workers[w], c) {
      BalancedAt(l, workers[w].loop.next, j);
    } else {
      BalancedAt(l, 0, j);
    }
  }

  lemma BalancedAt(l: Link, n: nat, j: nat)
    requires l.EventLink? && Balanced(l, n) && j < |l.fired|
    ensures if j < |l.delivered| then l.delivered[j].token == l.fired[j] else l.fired[j] in l.cells.Content()
  {
    var ts, rest := Tokens(l.delivered), l.cells.(extern := l.cells.extern[n..]).Content();
    if j < |ts| {
      assert l.fired[j] == ts[j];
    } else {
      assert l.fired[j] == rest[j - |ts|];
      assert rest[j - |ts|] in l.cells.extern[n..] + l.cells.middle + l.cells.intern;
      assert forall x :: x in l.cells.extern[n..] ==> x in l.cells.extern;
    }
  }

  /** The cycle under way, or the next one between calls. */
  function Turn(s: State): int { if InCycle(s.pc) then s.pc.now else s.clock }

  lemma LastBound(s: State, t: Task, c: nat)
    requires TimeOk(s)
    ensures Turn(s) <= Last(s, t, c) + Period(t.rate)
  {
    hide Prev, Due, Turned, Period;
    PrevFacts(t.rate, s.clock);
    if InCycle(s.pc) { PrevFacts(t.rate, s.pc.now); }
  }

  /**
   * Bounded latency: an event fired in the source's cycle s has its arrival cycle d, with
   * s + Ts <= d <= s + Ts + Td, in the sink.  If it has been delivered, that was in cycle d; if it
   * has not, then no turn of the sink later than d has begun, so the scheduler is not past d + Td.
   */
  lemma BoundedLatency(sys: System, clock: int, threads: nat, acts: seq<Action>, c: nat, j: nat)
    requires sys.Valid() && c < |sys.conns| && sys.conns[c].kind == Events && Punctual(acts)
    requires var s := Run(sys, Init(sys, clock, threads), acts); c < |s.links| && s.links[c].EventLink? && j < |s.links[c].fired|
    ensures var s := Run(sys, Init(sys, clock, threads), acts);
      var k, l := sys.conns[c], s.links[c];
      var x := l.fired[j];
      var d := Arrival(k, x.cycle);
      && x.cycle + Period(k.active.rate) <= d <= x.cycle + Period(k.active.rate) + Period(k.passive.rate)
      && (j < |l.delivered| ==> l.delivered[j] == Delivery(x, d))
      && (j >= |l.delivered| ==> Last(s, Loader(k), c) <= d && Turn(s) <= d + Period(k.passive.rate))
  {
    hide Control, Complete, Stamped, Step, Run, Init, Aged, InTime, Arrival, Conserved, Cells.Content, TimeOk, Last;
    RunLate(sys, clock, threads, acts, c);
    var s, k := Run(sys, Init(sys, clock, threads), acts), sys.conns[c];
    var l := s.links[c];
    var x := l.fired[j];
    var d := Arrival(k, x.cycle);
    ArrivalIff(k, x.cycle, d);
    InTimeBounds(k, x.cycle, d);
    FiredSomewhere(l, s.workers, c, j);
    if j < |l.delivered| {
      assert l.delivered[j] in l.delivered;
      ArrivalIff(k, x.cycle, l.delivered[j].cycle);
    } else {
      NotFarAhead(s, k.active, Loader(k), c);
      WaitingInTime(k, l.cells, Last(s, k.active, c), Last(s, Loader(k), c), x);
      LastBound(s, Loader(k), c);
    }
  }
}
