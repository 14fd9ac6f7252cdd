/**
 * The histories that connections keep, read off the actions of a run: which events have been
 * fired, which samples have been taken and in which cycles the sink has pulled.
 */
module SchedulerHistory {
  import opened ConnectionBuffers
  import opened Scheduling
  import opened SchedulerControl

  /** An instance of task t runs on worker w. */
  predicate Runs(s: State, w: nat, t: Task) { w < |s.workers| && s.workers[w].On? && s.workers[w].job.task == t }

  // ---- events --------------------------------------------------------------------------------

  /** The event that action a fires into connection c: any value, by an instance of the source. */
  function Shot(sys: System, s: State, a: Action, c: nat): seq<Token> {
    if a.Fire? && a.conn == c && c < |sys.conns| && sys.conns[c].kind == Events && Runs(s, a.w, sys.conns[c].active)
    then [Token(a.value, s.workers[a.w].job.cycle)] else []
  }

  /** The events fired into connection c during a run. */
  function Shots(sys: System, s: State, acts: seq<Action>, c: nat): seq<Token> {
    if acts == [] then []
    else
      var before := acts[..|acts| - 1];
      Shots(sys, s, before, c) + Shot(sys, Run(sys, s, before), acts[|acts| - 1], c)
  }

  lemma MainFired(sys: System, s: State, c: nat)
    requires LinksOk(sys, s.links) && c < |sys.conns| && sys.conns[c].kind == Events
    ensures c < |MainStep(sys, s).links| && MainStep(sys, s).links[c].EventLink? && MainStep(sys, s).links[c].fired == s.links[c].fired
  {
    hide Groups.Get, Groups.Set, Due, SwitchActive, SwitchPassive, SwitchActivePassive;
  }

  lemma StepFired(sys: System, s: State, a: Action, c: nat)
    requires LinksOk(sys, s.links) && c < |sys.conns| && sys.conns[c].kind == Events
    ensures var n := Step(sys, s, a);
      c < |n.links| && n.links[c].EventLink? && n.links[c].fired == s.links[c].fired + Shot(sys, s, a, c)
  {
    hide MainStep, Groups.Get;
    if a.Main? { MainFired(sys, s, c); }
  }

  /** The history of events of a connection is what the run has fired into it. */
  lemma {:induction false} FiredAsShot(sys: System, clock: int, threads: nat, acts: seq<Action>, c: nat)
    requires c < |sys.conns| && sys.conns[c].kind == Events
    ensures var s := Run(sys, Init(sys, clock, threads), acts);
      c < |s.links| && s.links[c].EventLink? && s.links[c].fired == Shots(sys, Init(sys, clock, threads), acts, c)
  {
    hide Step, Shot, Control;
    if acts != [] {
      hide Init;
      var before := acts[..|acts| - 1];
      FiredAsShot(sys, clock, threads, before, c);
      RunLinks(sys, clock, threads, before);
      StepFired(sys, Run(sys, Init(sys, clock, threads), before), acts[|acts| - 1], c);
    }
  }

  lemma RunLinks(sys: System, clock: int, threads: nat, acts: seq<Action>)
    ensures LinksOk(sys, Run(sys, Init(sys, clock, threads), acts).links)
  {
    hide Run, Init, JobsOk, Single, PcOk, FlagsOk;
    RunControl(sys, clock, threads, acts);
  }

  // ---- samples -------------------------------------------------------------------------------

  datatype Stored = Stored(value: int, cycle: int)

  /** The sample that action a takes for connection c: once in each instance of the source. */
  function Taken(sys: System, s: State, a: Action, c: nat): seq<Stored> {
    if a.Tick? && a.conn == c && c < |sys.conns| && sys.conns[c].kind == States && Active(s, a.w)
       && c in s.workers[a.w].todo && s.workers[a.w].loop.Quiet?
    then [Stored(a.value, s.workers[a.w].job.cycle)] else []
  }

  function Takes(sys: System, s: State, acts: seq<Action>, c: nat): seq<Stored> {
    if acts == [] then []
    else
      var before := acts[..|acts| - 1];
      Takes(sys, s, before, c) + Taken(sys, Run(sys, s, before), acts[|acts| - 1], c)
  }

  /** The sample is the default, or the one with its number among those taken. */
  predicate IsTaken(x: Sample, ts: seq<Stored>) {
    if x.number == 0 then x.value == 0 else x.number <= |ts| && ts[x.number - 1].value == x.value
  }

  /** The cycle of the pull that action a makes through connection c. */
  function PullOf(sys: System, s: State, a: Action, c: nat): seq<int> {
    if a.Pull? && a.conn == c && c < |sys.conns| && sys.conns[c].kind == States && Runs(s, a.w, sys.conns[c].active)
    then [s.workers[a.w].job.cycle] else []
  }

  function PullCycles(sys: System, s: State, acts: seq<Action>, c: nat): seq<int> {
    if acts == [] then []
    else
      var before := acts[..|acts| - 1];
      PullCycles(sys, s, before, c) + PullOf(sys, Run(sys, s, before), acts[|acts| - 1], c)
  }

  /** The samples in the buffers and in the history of pulls are samples that were taken. */
  ghost predicate Recorded(l: Link, ts: seq<Stored>, cycles: seq<int>) {
    && l.StateLink? && l.taken == |ts| == l.latch.intern.number
    && IsTaken(l.latch.intern, ts) && IsTaken(l.latch.middle, ts) && IsTaken(l.latch.extern, ts)
    && |l.pulls| == |cycles|
    && forall j :: 0 <= j < |cycles| ==> l.pulls[j].cycle == cycles[j] && IsTaken(l.pulls[j].sample, ts)
  }

  lemma MainRecorded(sys: System, s: State, c: nat, ts: seq<Stored>, cycles: seq<int>)
    requires LinksOk(sys, s.links) && c < |sys.conns| && Recorded(s.links[c], ts, cycles)
    ensures c < |MainStep(sys, s).links| && Recorded(MainStep(sys, s).links[c], ts, cycles)
  {
    hide Groups.Get, Groups.Set, Due, IsTaken;
  }

  lemma StepRecorded(sys: System, s: State, a: Action, c: nat, ts: seq<Stored>, cycles: seq<int>)
    requires LinksOk(sys, s.links) && c < |sys.conns| && sys.conns[c].kind == States && Recorded(s.links[c], ts, cycles)
    ensures c < |Step(sys, s, a).links|
    ensures Recorded(Step(sys, s, a).links[c], ts + Taken(sys, s, a, c), cycles + PullOf(sys, s, a, c))
  {
    hide MainStep, Groups.Get;
    assert ts + [] == ts && cycles + [] == cycles;
    if a.Main? { MainRecorded(sys, s, c, ts, cycles); }
  }

  /**
   * Over every run the sink has pulled once for each pull of its instances, in their cycles, and
   * every value it saw is the default or one that the source's work tick stored.
   */
  lemma {:induction false} PullsAsTaken(sys: System, clock: int, threads: nat, acts: seq<Action>, c: nat)
    requires c < |sys.conns| && sys.conns[c].kind == States
    ensures var s0 := Init(sys, clock, threads);
      var s := Run(sys, s0, acts);
      c < |s.links| && Recorded(s.links[c], Takes(sys, s0, acts, c), PullCycles(sys, s0, acts, c))
  {
    hide Step, Taken, PullOf, Control, Recorded;
    if acts == [] {
      InitRecorded(sys, clock, threads, c);
    } else {
      hide Init;
      var before := acts[..|acts| - 1];
      PullsAsTaken(sys, clock, threads, before, c);
      RunLinks(sys, clock, threads, before);
      var s0 := Init(sys, clock, threads);
      StepRecorded(sys, Run(sys, s0, before), acts[|acts| - 1], c, Takes(sys, s0, before, c), PullCycles(sys, s0, before, c));
    }
  }

  lemma InitRecorded(sys: System, clock: int, threads: nat, c: nat)
    requires c < |sys.conns| && sys.conns[c].kind == States
    ensures Recorded(Init(sys, clock, threads).links[c], [], [])
  {
  }
}
