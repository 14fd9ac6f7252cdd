/**
 * state_sink: an active port with one handler at a time.  It pulls from the source connected last
 * while that source lives, whatever becomes of earlier sources and however often it is moved.
 */
module StatePorts {
  import opened PortEntries

  /** A state sink: its handler, the address of the source it leads to, and its callback. */
  datatype Sink<H> = Sink(handler: Option<H>, hash: nat, callback: Option<nat>)

  /**
   * callbacks: the live callbacks and the sink each is bound to.  sources: the live sources and
   * their connection breakers.  made: the number of callbacks made so far.  last: the connection
   * made last at a sink, through all its moves.  dead: the sources that have been destroyed.
   */
  datatype Ports<H> = Ports(
    sinks: map<nat, Sink<H>>, callbacks: map<nat, nat>, sources: map<nat, seq<nat>>, made: nat,
    last: map<nat, Option<Entry<H>>>, dead: set<nat>)

  ghost predicate Bound<H>(sinks: map<nat, Sink<H>>, callbacks: map<nat, nat>) {
    && (forall p :: p in sinks && sinks[p].callback.Some? ==>
          sinks[p].callback.value in callbacks && callbacks[sinks[p].callback.value] == p)
    && (forall cb :: cb in callbacks ==> callbacks[cb] in sinks && sinks[callbacks[cb]].callback == Some(cb))
  }

  /** What a pull through the sink finds: the handler of the last connection, if its source lives. */
  function Reachable<H>(last: Option<Entry<H>>, dead: set<nat>): Option<H> {
    if last.Some? && last.value.key !in dead then Some(last.value.handler) else None
  }

  /** The sink can be told of the end of the source it pulls from. */
  ghost predicate SinkOk<H>(a: Sink<H>, last: Option<Entry<H>>, sources: map<nat, seq<nat>>, dead: set<nat>) {
    && a.handler == Reachable(last, dead)
    && (last.Some? ==>
          && a.callback.Some? && a.hash == last.value.key
          && (a.hash in sources ==> a.callback.value in sources[a.hash]))
  }

  ghost predicate Ok<H>(v: Ports<H>) {
    && Bound(v.sinks, v.callbacks) && v.last.Keys == v.sinks.Keys && v.sources.Keys !! v.dead
    && (forall cb :: cb in v.callbacks ==> cb < v.made)
    && (forall p :: p in v.sinks ==> SinkOk(v.sinks[p], v.last[p], v.sources, v.dead))
  }

  // ---- connecting and moving -----------------------------------------------------------------

  function Connected<H>(v: Ports<H>, p: nat, k: nat, h: H): Ports<H>
    requires p in v.sinks && v.sinks[p].callback.Some?
  {
    v.(sinks := v.sinks[p := v.sinks[p].(handler := Some(h), hash := k)],
       sources := if k in v.sources then v.sources[k := v.sources[k] + [v.sinks[p].callback.value]] else v.sources,
       last := v.last[p := Some(Entry(k, h))])
  }

  lemma ConnectOk<H>(v: Ports<H>, p: nat, k: nat, h: H)
    requires Ok(v) && p in v.sinks && v.sinks[p].callback.Some? && k !in v.dead
    ensures Ok(Connected(v, p, k, h))
  {
    hide Bound, SinkOk;
    var n := Connected(v, p, k, h);
    ConnectBound(v, p, k, h);
    forall q | q in n.sinks ensures SinkOk(n.sinks[q], n.last[q], n.sources, n.dead) {
      ConnectSink(n.sinks[q], v.sinks[q], v, p, q, k, h);
    }
  }

  lemma ConnectBound<H>(v: Ports<H>, p: nat, k: nat, h: H)
    requires Bound(v.sinks, v.callbacks) && p in v.sinks && v.sinks[p].callback.Some?
    ensures Bound(Connected(v, p, k, h).sinks, v.callbacks)
  {
  }

  lemma ConnectSink<H>(a: Sink<H>, b: Sink<H>, v: Ports<H>, p: nat, q: nat, k: nat, h: H)
    requires p in v.sinks && v.sinks[p].callback.Some? && q in v.sinks && q in v.last && p in v.last && k !in v.dead
    requires a == Connected(v, p, k, h).sinks[q] && b == v.sinks[q] && SinkOk(b, v.last[q], v.sources, v.dead)
    ensures SinkOk(a, Connected(v, p, k, h).last[q], Connected(v, p, k, h).sources, v.dead)
  {
  }

  /** Handlers are swapped, the hash is copied, the callback is rebound. */
  function Moved<H>(v: Ports<H>, p: nat, q: nat): Ports<H>
    requires p in v.sinks && p in v.last && v.sinks[p].callback.Some?
  {
    v.(sinks := v.sinks[q := v.sinks[p]][p := Sink(None, v.sinks[p].hash, None)],
       callbacks := v.callbacks[v.sinks[p].callback.value := q], last := v.last[q := v.last[p]][p := None])
  }

  lemma MoveBound<H>(v: Ports<H>, p: nat, q: nat)
    requires Bound(v.sinks, v.callbacks) && p in v.sinks && p in v.last && q !in v.sinks && v.sinks[p].callback.Some?
    ensures Bound(Moved(v, p, q).sinks, Moved(v, p, q).callbacks) && v.sinks[p].callback.value in v.callbacks
  {
  }

  lemma MoveOk<H>(v: Ports<H>, p: nat, q: nat)
    requires Ok(v) && p in v.sinks && q !in v.sinks && v.sinks[p].callback.Some?
    ensures Ok(Moved(v, p, q))
  {
    hide Bound;
    MoveBound(v, p, q);
  }

  // ---- the destructor of a source ------------------------------------------------------------

  /** The sinks while source k goes through its breakers, up to the one with index i. */
  ghost predicate Dropping<H>(v: Ports<H>, now: map<nat, Sink<H>>, k: nat, breakers: seq<nat>, i: nat) {
    && now.Keys == v.sinks.Keys && i <= |breakers|
    && forall p :: p in now ==>
         now[p] == if v.sinks[p].hash == k && v.sinks[p].callback.Some? && v.sinks[p].callback.value in breakers[..i]
                   then v.sinks[p].(handler := None) else v.sinks[p]
  }

  lemma DroppingOne<H>(v: Ports<H>, now: map<nat, Sink<H>>, k: nat, breakers: seq<nat>, i: nat)
    requires Ok(v) && Dropping(v, now, k, breakers, i) && i < |breakers|
    ensures breakers[i] in v.callbacks ==> v.callbacks[breakers[i]] in now
    ensures breakers[i] in v.callbacks && now[v.callbacks[breakers[i]]].hash == k ==>
      Dropping(v, now[v.callbacks[breakers[i]] := now[v.callbacks[breakers[i]]].(handler := None)], k, breakers, i + 1)
    ensures !(breakers[i] in v.callbacks && now[v.callbacks[breakers[i]]].hash == k) ==> Dropping(v, now, k, breakers, i + 1)
  {
    hide SinkOk;
    assert breakers[..i + 1] == breakers[..i] + [breakers[i]];
  }

  function WithoutSource<H>(v: Ports<H>, now: map<nat, Sink<H>>, k: nat): Ports<H> {
    v.(sinks := now, sources := v.sources - {k}, dead := v.dead + {k})
  }

  lemma DroppingEnds<H>(v: Ports<H>, now: map<nat, Sink<H>>, k: nat)
    requires Ok(v) && k in v.sources && Dropping(v, now, k, v.sources[k], |v.sources[k]|)
    ensures Ok(WithoutSource(v, now, k))
  {
    hide SinkOk;
    var b := v.sources[k];
    assert b[..|b|] == b;
    forall p | p in now ensures SinkOk(now[p], v.last[p], v.sources - {k}, v.dead + {k}) {
      DroppedSink(v.sinks[p], v.last[p], v.sources, v.dead, k);
    }
  }

  /** One sink: cut off exactly if the source destroyed is the one it pulls from. */
  lemma DroppedSink<H>(a: Sink<H>, last: Option<Entry<H>>, sources: map<nat, seq<nat>>, dead: set<nat>, k: nat)
    requires SinkOk(a, last, sources, dead) && k in sources
    ensures SinkOk(if a.hash == k && a.callback.Some? && a.callback.value in sources[k] then a.(handler := None) else a, last, sources - {k}, dead + {k})
  {
  }

  // ---- the ports as objects ------------------------------------------------------------------

  class StatePorts<H> {
    var sinks: map<nat, Sink<H>>
    var callbacks: map<nat, nat>
    var sources: map<nat, seq<nat>>
    var made: nat
    ghost var last: map<nat, Option<Entry<H>>>
    ghost var dead: set<nat>

    ghost function Value(): Ports<H>
      reads this
    {
      Ports(sinks, callbacks, sources, made, last, dead)
    }

    ghost predicate Valid()
      reads this
    {
      Ok(Value())
    }

    constructor ()
      ensures Valid() && Value() == Ports(map[], map[], map[], 0, map[], {})
    {
      sinks, callbacks, sources, made := map[], map[], map[], 0;
      last, dead := map[], {};
    }

    method NewSink(p: nat)
      requires Valid() && p !in sinks
      modifies this
      ensures Valid() && last == old(last)[p := None] && dead == old(dead) && sources == old(sources)
    {
      sinks, callbacks, made := sinks[p := Sink(None, 0, Some(made))], callbacks[made := p], made + 1;
      last := last[p := None];
    }

    method NewSource(k: nat)
      requires Valid() && k !in sources && k !in dead
      requires forall p :: p in last && last[p].Some? ==> last[p].value.key != k
      modifies this
      ensures Valid() && sources == old(sources)[k := []] && dead == old(dead) && last == old(last)
    {
      sources := sources[k := []];
    }

    /** connect: the new handler takes the place of the old one. */
    method Connect(p: nat, k: nat, h: H)
      requires Valid() && p in sinks && sinks[p].callback.Some? && k !in dead
      modifies this
      ensures Valid() && last == old(last)[p := Some(Entry(k, h))] && dead == old(dead) && sources.Keys == old(sources.Keys)
    {
      hide Bound, SinkOk;
      ConnectOk(Value(), p, k, h);
      var a := sinks[p];
      sinks := sinks[p := a.(handler := Some(h), hash := k)];
      if k in sources {
        sources := sources[k := sources[k] + [a.callback.value]];
      }
      last := last[p := Some(Entry(k, h))];
    }

    /** ~state_source: the sinks that pull from it are cut off, all others are as before. */
    method DestroySource(k: nat)
      requires Valid() && k in sources
      modifies this
      ensures Valid() && dead == old(dead) + {k} && last == old(last) && sinks.Keys == old(sinks.Keys)
    {
      hide SinkOk;
      ghost var v := Value();
      var breakers := sources[k];
      for i := 0 to |breakers|
        invariant Value() == v.(sinks := sinks) && Dropping(v, sinks, k, breakers, i)
      {
        DroppingOne(v, sinks, k, breakers, i);
        if breakers[i] in callbacks {
          var p := callbacks[breakers[i]];
          if sinks[p].hash == k {
            sinks := sinks[p := sinks[p].(handler := None)];
          }
        }
      }
      DroppingEnds(v, sinks, k);
      sources := sources - {k};
      dead := dead + {k};
    }

    /** The move constructor: handlers are swapped, the hash is copied, the callback is rebound. */
    method MoveSink(p: nat, q: nat)
      requires Valid() && p in sinks && q !in sinks && sinks[p].callback.Some?
      modifies this
      ensures Valid() && last == old(last)[q := old(last)[p]][p := None] && dead == old(dead) && sources == old(sources)
    {
      hide Bound, SinkOk;
      MoveOk(Value(), p, q);
      var a := sinks[p];
      sinks, callbacks := sinks[q := a][p := Sink(None, a.hash, None)], callbacks[a.callback.value := q];
      last := last[q := last[p]][p := None];
    }

    method DestroySink(p: nat)
      requires Valid() && p in sinks
      modifies this
      ensures Valid() && last == old(last) - {p} && dead == old(dead) && sources == old(sources)
    {
      if sinks[p].callback.Some? {
        callbacks := callbacks - {sinks[p].callback.value};
      }
      sinks := sinks - {p};
      last := last - {p};
    }

    /**
     * get: the handler of the source connected last, as long as that source lives; otherwise
     * there is none and the source throws not_connected.
     */
    method Get(p: nat) returns (r: Option<H>)
      requires Valid() && p in sinks
      ensures p in last && (r.Some? <==> last[p].Some? && last[p].value.key !in dead)
      ensures r.Some? ==> r.value == last[p].value.handler
    {
      r := sinks[p].handler;
    }
  }
}
