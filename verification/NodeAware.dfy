/**
 * buffer_factory::construct_buffer: which ticks of which regions are connected to which ports of
 * a new buffer.  The state machine's switch ticks and work ticks are proved to be what this
 * wiring does.
 */
module NodeAware {
  import opened ConnectionBuffers
  import opened Scheduling

  /** Regions are told apart by their names. */
  datatype Region = Region(id: string, rate: Rate)

  datatype Tick = SwitchTick | WorkTick

  datatype BufferPort = ActiveTick | PassiveTick | ActivePassiveTick | SendTick

  /** An event source of a region connected to a sink of the buffer. */
  datatype Wire = Wire(region: string, tick: Tick, port: BufferPort)

  predicate SameRegion(a: Region, p: Region) { a.id == p.id }

  predicate SameTickRate(a: Region, p: Region) { Period(a.rate) == Period(p.rate) }

  /** No buffer, and no wires, between ports of the same region. */
  function ConstructBuffer(active: Region, passive: Region): seq<Wire> {
    if SameRegion(active, passive) then []
    else
      (if SameTickRate(active, passive) then [Wire(active.id, SwitchTick, ActivePassiveTick)]
       else [Wire(active.id, SwitchTick, ActiveTick), Wire(passive.id, SwitchTick, PassiveTick)])
      + [Wire(passive.id, WorkTick, SendTick)]
  }

  /** A switch port of the buffer receives its tick. */
  function Receive(l: Link, port: BufferPort): Link {
    match l
    case EventLink(b, _, _) =>
      (match port
       case ActiveTick => l.(cells := SwitchActive(b))
       case PassiveTick => l.(cells := SwitchPassive(b))
       case ActivePassiveTick => l.(cells := SwitchActivePassive(b))
       case SendTick => l)
    case StateLink(b, _, _) =>
      (match port
       case ActiveTick => l.(latch := LatchActive(b))
       case PassiveTick => l.(latch := LatchPassive(b))
       case ActivePassiveTick => l.(latch := LatchActivePassive(b))
       case SendTick => l)
  }

  function Serve(w: Wire, region: string, l: Link): Link {
    if w.region == region && w.tick == SwitchTick then Receive(l, w.port) else l
  }

  /** A region fires its switch tick: the wires that start there are served in order. */
  function FireSwitch(wires: seq<Wire>, region: string, l: Link): Link {
    if wires == [] then l
    else FireSwitch(wires[1..], region, Serve(wires[0], region, l))
  }

  predicate HasWorkTick(wires: seq<Wire>, region: string) { Wire(region, WorkTick, SendTick) in wires }

  /** The names of the regions of the tasks; different tasks have different regions. */
  ghost predicate Named(sys: System, name: map<Task, string>) {
    && (forall t :: sys.Has(t) ==> t in name)
    && (forall t, u :: sys.Has(t) && sys.Has(u) && name[t] == name[u] ==> t == u)
  }

  lemma SameRates(r: Rate, q: Rate)
    ensures Period(r) == Period(q) <==> r == q
  {
  }

  /** The switch tick of a task does to a connection what the wires of its buffer do. */
  lemma SwitchAsWired(sys: System, name: map<Task, string>, c: nat, l: Link, t: Task)
    requires sys.Valid() && Named(sys, name) && c < |sys.conns| && sys.Has(t)
    ensures var a, p := sys.conns[c].active, sys.conns[c].passive;
      FireSwitch(ConstructBuffer(Region(name[a], a.rate), Region(name[p], p.rate)), name[t], l) == OnSwitch(sys.conns[c], l, t)
  {
    hide SwitchActive, SwitchPassive, SwitchActivePassive, LatchActive, LatchPassive, LatchActivePassive, Period, FireSwitch;
    var a, p := sys.conns[c].active, sys.conns[c].passive;
    SameRates(a.rate, p.rate);
    var work := Wire(name[p], WorkTick, SendTick);
    if a.rate == p.rate {
      var w := [Wire(name[a], SwitchTick, ActivePassiveTick)];
      assert ConstructBuffer(Region(name[a], a.rate), Region(name[p], p.rate)) == w + [work];
      FireTwo(w[0], work, name[t], l);
    } else {
      var x, y := Wire(name[a], SwitchTick, ActiveTick), Wire(name[p], SwitchTick, PassiveTick);
      assert ConstructBuffer(Region(name[a], a.rate), Region(name[p], p.rate)) == [x] + ([y] + [work]);
      FireThree(x, y, work, name[t], l);
    }
  }

  lemma FireTwo(x: Wire, y: Wire, region: string, l: Link)
    ensures FireSwitch([x] + [y], region, l) == Serve(y, region, Serve(x, region, l))
  {
    hide Serve;
    var m := Serve(x, region, l);
    assert ([x] + [y])[1..] == [y] && [y][1..] == [];
    assert FireSwitch([y], region, m) == Serve(y, region, m);
  }

  lemma FireThree(x: Wire, y: Wire, z: Wire, region: string, l: Link)
    ensures FireSwitch([x] + ([y] + [z]), region, l) == Serve(z, region, Serve(y, region, Serve(x, region, l)))
  {
    hide Serve;
    assert ([x] + ([y] + [z]))[1..] == [y] + [z];
    FireTwo(y, z, region, Serve(x, region, l));
  }

  /** The connections that a work tick reaches are those wired to it. */
  lemma WorkAsWired(sys: System, name: map<Task, string>, c: nat, t: Task)
    requires sys.Valid() && Named(sys, name) && c < |sys.conns| && sys.Has(t)
    ensures var a, p := sys.conns[c].active, sys.conns[c].passive;
      HasWorkTick(ConstructBuffer(Region(name[a], a.rate), Region(name[p], p.rate)), name[t]) <==> c in sys.TickedBy(t)
  {
    hide Period;
    var a, p := sys.conns[c].active, sys.conns[c].passive;
    var wires := ConstructBuffer(Region(name[a], a.rate), Region(name[p], p.rate));
    assert wires[|wires| - 1] == Wire(name[p], WorkTick, SendTick);
  }
}
