/** Connections as ports store them, and what it means to select elements of a list by position. */
module PortEntries {
  datatype Option<T> = None | Some(value: T)

  /** A connection as an active port stores it: where it leads, and the handler to call. */
  datatype Entry<H> = Entry(key: nat, handler: H)

  /** Positions of a list of n elements, in ascending order. */
  ghost predicate Positions(at: seq<nat>, n: nat) {
    (forall k :: 0 <= k < |at| ==> at[k] < n) && forall j, k :: 0 <= j < k < |at| ==> at[j] < at[k]
  }

  ghost function Later(at: seq<nat>): (r: seq<nat>)
    ensures |r| == |at| && forall k :: 0 <= k < |at| ==> r[k] == at[k] + 1
  {
    seq(|at|, k requires 0 <= k < |at| => at[k] + 1)
  }

  lemma LaterIn(at: seq<nat>, i: nat)
    ensures i + 1 in Later(at) <==> i in at
    ensures 0 !in Later(at)
  {
    if i in at {
      var k :| 0 <= k < |at| && at[k] == i;
      assert Later(at)[k] == i + 1;
    }
  }

  /** One element in front of the list, which is picked or not: all other positions move by one. */
  ghost function PickFirst(rest: seq<nat>, first: bool): seq<nat> { (if first then [0] else []) + Later(rest) }

  lemma PickedPositions(rest: seq<nat>, n: nat, first: bool)
    requires Positions(rest, n)
    ensures Positions(PickFirst(rest, first), n + 1)
  {
  }

  lemma PickedIn(rest: seq<nat>, first: bool, i: nat)
    ensures i in PickFirst(rest, first) <==> if i == 0 then first else i - 1 in rest
  {
    hide Later;
    LaterIn(rest, if i == 0 then 0 else i - 1);
  }

  lemma PickedAt(rest: seq<nat>, first: bool, k: nat)
    requires k < |PickFirst(rest, first)|
    ensures var at := PickFirst(rest, first);
      if first && k == 0 then at[k] == 0 else var j := if first then k - 1 else k; j < |rest| && at[k] == rest[j] + 1
  {
    hide Later;
  }

  lemma PickedLength(rest: seq<nat>, first: bool)
    ensures |PickFirst(rest, first)| == |rest| + if first then 1 else 0
  {
  }

  lemma InList(at: seq<nat>, n: nat)
    requires Positions(at, n)
    ensures forall k :: 0 <= k < |at| ==> at[k] < n
  {
  }

  /** at are the positions of s at which p holds, and r are their images under the relation q. */
  ghost predicate Selects<A, B>(at: seq<nat>, s: seq<A>, p: A -> bool, r: seq<B>, q: (A, B) -> bool) {
    && Positions(at, |s|) && |at| == |r|
    && (forall i: nat :: i < |s| ==> (i in at <==> p(s[i])))
    && (forall k :: 0 <= k < |at| ==> q(s[at[k]], r[k]))
  }

  /** One element x in front of the list, with its image y if it is picked. */
  lemma SelectsMore<A, B>(rest: seq<nat>, x: A, s: seq<A>, p: A -> bool, y: seq<B>, r: seq<B>, q: (A, B) -> bool) returns (at: seq<nat>)
    requires Selects(rest, s, p, r, q) && (if p(x) then |y| == 1 && q(x, y[0]) else y == [])
    ensures Selects(at, [x] + s, p, y + r, q)
  {
    hide Positions, PickFirst;
    at := PickFirst(rest, p(x));
    PickedPositions(rest, |s|, p(x));
    InList(rest, |s|);
    InList(at, |s| + 1);
    PickedLength(rest, p(x));
    var t := [x] + s;
    forall i: nat | i < |t| ensures i in at <==> p(t[i]) {
      PickedIn(rest, p(x), i);
    }
    forall k | 0 <= k < |at| ensures q(t[at[k]], (y + r)[k]) {
      PickedAt(rest, p(x), k);
    }
  }
}

/**
 * Which handlers an active port holds, over every sequence of connecting, destroying and moving
 * ports.  Ports are known by their address; an address is not used twice.  An active port keeps
 * its handlers and the addresses of the passive ports they lead to in two vectors; a passive port
 * keeps weak references to the callbacks that disconnect it.
 */
module PortRegistry {
  import opened PortEntries

  // ---- aligned vectors and removal by key ----------------------------------------------------

  function Entries<H>(keys: seq<nat>, handlers: seq<H>): seq<Entry<H>>
    requires |keys| == |handlers|
  {
    seq(|keys|, i requires 0 <= i < |keys| => Entry(keys[i], handlers[i]))
  }

  /** The entries that lead elsewhere. */
  function Without<H>(es: seq<Entry<H>>, k: nat): seq<Entry<H>> {
    if es == [] then [] else (if es[0].key == k then [] else [es[0]]) + Without(es[1..], k)
  }

  function Occurs(keys: seq<nat>, k: nat): nat {
    if keys == [] then 0 else (if keys[0] == k then 1 else 0) + Occurs(keys[1..], k)
  }

  function Cut<T>(s: seq<T>, i: nat): seq<T>
    requires i < |s|
  {
    s[..i] + s[i + 1..]
  }

  lemma {:induction false} OccursConcat(a: seq<nat>, b: seq<nat>, k: nat)
    ensures Occurs(a + b, k) == Occurs(a, k) + Occurs(b, k)
  {
    if a == [] {
      assert a + b == b;
    } else {
      assert (a + b)[1..] == a[1..] + b;
      OccursConcat(a[1..], b, k);
    }
  }

  lemma {:induction false} WithoutConcat<H>(a: seq<Entry<H>>, b: seq<Entry<H>>, k: nat)
    ensures Without(a + b, k) == Without(a, k) + Without(b, k)
  {
    if a == [] {
      assert a + b == b;
    } else {
      assert (a + b)[1..] == a[1..] + b;
      WithoutConcat(a[1..], b, k);
    }
  }

  /** Removing one entry for k leaves the others as they are, and one occurrence of k less. */
  lemma CutOne<H>(keys: seq<nat>, handlers: seq<H>, i: nat, k: nat)
    requires |keys| == |handlers| && i < |keys| && keys[i] == k
    ensures Without(Entries(Cut(keys, i), Cut(handlers, i)), k) == Without(Entries(keys, handlers), k)
    ensures forall j :: Occurs(Cut(keys, i), j) == Occurs(keys, j) - (if j == k then 1 else 0)
  {
    var es := Entries(keys, handlers);
    assert Entries(Cut(keys, i), Cut(handlers, i)) == es[..i] + es[i + 1..];
    assert es == es[..i] + [es[i]] + es[i + 1..];
    WithoutConcat(es[..i], es[i + 1..], k);
    WithoutConcat(es[..i] + [es[i]], es[i + 1..], k);
    WithoutConcat(es[..i], [es[i]], k);
    assert Without([es[i]], k) == [];
    forall j ensures Occurs(Cut(keys, i), j) == Occurs(keys, j) - (if j == k then 1 else 0) {
      assert keys == keys[..i] + [keys[i]] + keys[i + 1..];
      OccursConcat(keys[..i], keys[i + 1..], j);
      OccursConcat(keys[..i] + [keys[i]], keys[i + 1..], j);
      OccursConcat(keys[..i], [keys[i]], j);
    }
  }

  lemma {:induction false} OccursNone(keys: seq<nat>, k: nat)
    ensures Occurs(keys, k) == 0 <==> k !in keys
  {
    if keys != [] { OccursNone(keys[1..], k); }
  }

  lemma {:induction false} NothingToDrop<H>(es: seq<Entry<H>>, k: nat)
    requires forall i :: 0 <= i < |es| ==> es[i].key != k
    ensures Without(es, k) == es
  {
    if es != [] { NothingToDrop(es[1..], k); }
  }

  /** multiple_handler_policy::remove_handler looks for the first place of the key. */
  method FindKey(keys: seq<nat>, k: nat) returns (i: nat)
    ensures i <= |keys| && k !in keys[..i] && (i < |keys| ==> keys[i] == k)
    ensures i < |keys| <==> k in keys
  {
    i := 0;
    while i < |keys| && keys[i] != k
      invariant i <= |keys| && k !in keys[..i]
    {
      i := i + 1;
    }
  }

  // ---- what has been connected, and what is still alive --------------------------------------

  /** The connections to ports that have not been destroyed, in the order they were made. */
  function Alive<H>(made: seq<Entry<H>>, dead: set<nat>): seq<Entry<H>> {
    if made == [] then [] else (if made[0].key in dead then [] else [made[0]]) + Alive(made[1..], dead)
  }

  lemma {:induction false} AliveConcat<H>(a: seq<Entry<H>>, b: seq<Entry<H>>, dead: set<nat>)
    ensures Alive(a + b, dead) == Alive(a, dead) + Alive(b, dead)
  {
    if a == [] {
      assert a + b == b;
    } else {
      assert (a + b)[1..] == a[1..] + b;
      AliveConcat(a[1..], b, dead);
    }
  }

  lemma {:induction false} AliveDies<H>(made: seq<Entry<H>>, dead: set<nat>, k: nat)
    ensures Alive(made, dead + {k}) == Without(Alive(made, dead), k)
  {
    if made != [] {
      AliveDies(made[1..], dead, k);
      var rest := Alive(made[1..], dead);
      if made[0].key in dead {
        assert Alive(made, dead) == rest;
      } else {
        assert Alive(made, dead) == [made[0]] + rest && ([made[0]] + rest)[1..] == rest;
      }
    }
  }

  lemma {:induction false} AliveKeys<H>(made: seq<Entry<H>>, dead: set<nat>)
    ensures forall i :: 0 <= i < |Alive(made, dead)| ==> Alive(made, dead)[i].key !in dead
  {
    if made != [] { AliveKeys(made[1..], dead); }
  }

  lemma AliveFirst<H>(made: seq<Entry<H>>, dead: set<nat>)
    requires made != []
    ensures Alive(made, dead) == (if made[0].key in dead then [] else [made[0]]) + Alive(made[1..], dead)
  {
  }

  ghost function Lives<H>(dead: set<nat>): Entry<H> -> bool { (e: Entry<H>) => e.key !in dead }

  ghost function Same<A>(): (A, A) -> bool { (x: A, y: A) => x == y }

  lemma {:induction false} AliveSelects<H>(made: seq<Entry<H>>, dead: set<nat>) returns (at: seq<nat>)
    ensures Selects(at, made, Lives(dead), Alive(made, dead), Same())
  {
    if made == [] {
      at := [];
    } else {
      hide Alive, Selects;
      var rest := AliveSelects(made[1..], dead);
      AliveFirst(made, dead);
      at := SelectsMore(rest, made[0], made[1..], Lives(dead), if made[0].key in dead then [] else [made[0]], Alive(made[1..], dead), Same());
      assert [made[0]] + made[1..] == made;
    }
  }

  /** Which connections are alive: exactly those whose port has not been destroyed, in their order. */
  lemma AliveAt<H>(made: seq<Entry<H>>, dead: set<nat>) returns (at: seq<nat>)
    ensures Positions(at, |made|) && |at| == |Alive(made, dead)|
    ensures forall k :: 0 <= k < |at| ==> Alive(made, dead)[k] == made[at[k]]
    ensures forall i: nat :: i < |made| ==> (i in at <==> made[i].key !in dead)
  {
    hide Alive, Positions;
    at := AliveSelects(made, dead);
  }

  lemma Nothing<H>(dead: set<nat>)
    ensures Entries<H>([], []) == Alive([], dead) == [] && forall k :: Occurs([], k) == 0
  {
  }

  // ---- event sources and event sinks ---------------------------------------------------------

  /** An event source: its two vectors, and its callback unless it has been moved from. */
  datatype Source<H> = Source(handlers: seq<H>, keys: seq<nat>, callback: Option<nat>)

  function BreakersOf(breakers: seq<nat>, callback: Option<nat>): nat {
    match callback
    case None => 0
    case Some(cb) => Occurs(breakers, cb)
  }

  /**
   * The whole registry.  callbacks: the live callback objects and the source each is bound to.
   * sinks: the live sinks and their connection breakers, which are weak references to callbacks.
   * made: the number of callbacks made so far.  history: all connections ever made at a source,
   * through all its moves.  dead: the sinks that have been destroyed.
   */
  datatype Ports<H> = Ports(
    sources: map<nat, Source<H>>, callbacks: map<nat, nat>, sinks: map<nat, seq<nat>>, made: nat,
    history: map<nat, seq<Entry<H>>>, dead: set<nat>)

  ghost predicate Aligned<H>(sources: map<nat, Source<H>>) {
    forall p :: p in sources ==> |sources[p].handlers| == |sources[p].keys| && (sources[p].callback.None? ==> sources[p].keys == [])
  }

  /** Each source that has a callback is the one its callback is bound to, and the other way. */
  ghost predicate Bound<H>(sources: map<nat, Source<H>>, callbacks: map<nat, nat>) {
    && (forall p :: p in sources && sources[p].callback.Some? ==>
          sources[p].callback.value in callbacks && callbacks[sources[p].callback.value] == p)
    && (forall cb :: cb in callbacks ==> callbacks[cb] in sources && sources[callbacks[cb]].callback == Some(cb))
  }

  ghost predicate Known(callbacks: map<nat, nat>, sinks: map<nat, seq<nat>>, made: nat) {
    && (forall cb :: cb in callbacks ==> cb < made)
    && (forall k, i :: k in sinks && 0 <= i < |sinks[k]| ==> sinks[k][i] < made)
  }

  /** As many entries for a live sink as the sink has breakers for the source. */
  ghost predicate Counted<H>(sources: map<nat, Source<H>>, sinks: map<nat, seq<nat>>) {
    forall p, k :: p in sources && k in sinks ==> Occurs(sources[p].keys, k) == BreakersOf(sinks[k], sources[p].callback)
  }

  /** A source holds exactly its connections to live sinks, in the order they were made. */
  ghost predicate Current<H>(v: Ports<H>)
    requires Aligned(v.sources)
  {
    && v.history.Keys == v.sources.Keys && v.sinks.Keys !! v.dead
    && forall p :: p in v.sources ==> Entries(v.sources[p].keys, v.sources[p].handlers) == Alive(v.history[p], v.dead)
  }

  ghost predicate Ok<H>(v: Ports<H>) {
    && Aligned(v.sources) && Bound(v.sources, v.callbacks) && Known(v.callbacks, v.sinks, v.made)
    && Counted(v.sources, v.sinks) && Current(v)
  }

  // ---- each operation keeps it ---------------------------------------------------------------

  function WithSource<H>(v: Ports<H>, p: nat): Ports<H> {
    v.(sources := v.sources[p := Source([], [], Some(v.made))], callbacks := v.callbacks[v.made := p],
       made := v.made + 1, history := v.history[p := []])
  }

  lemma NewSourceBound<H>(v: Ports<H>, p: nat)
    requires Bound(v.sources, v.callbacks) && Known(v.callbacks, v.sinks, v.made) && p !in v.sources
    ensures Bound(WithSource(v, p).sources, WithSource(v, p).callbacks)
  {
    var n := WithSource(v, p);
    forall q | q in n.sources && n.sources[q].callback.Some?
      ensures n.sources[q].callback.value in n.callbacks && n.callbacks[n.sources[q].callback.value] == q
    {
      if q != p { assert n.sources[q] == v.sources[q] && v.sources[q].callback.value in v.callbacks; }
    }
  }

  lemma NewSourceCounted<H>(v: Ports<H>, p: nat)
    requires Counted(v.sources, v.sinks) && Known(v.callbacks, v.sinks, v.made) && p !in v.sources
    ensures Counted(WithSource(v, p).sources, v.sinks)
  {
    hide Occurs;
    forall k | k in v.sinks ensures Occurs(v.sinks[k], v.made) == 0 == Occurs([], k) {
      OccursNone(v.sinks[k], v.made);
      OccursNone([], k);
    }
  }

  lemma NewSourceOk<H>(v: Ports<H>, p: nat)
    requires Ok(v) && p !in v.sources
    ensures Ok(WithSource(v, p))
  {
    hide Occurs, Entries, Alive, Bound, Counted;
    NewSourceBound(v, p);
    NewSourceCounted(v, p);
    Nothing<H>(v.dead);
  }

  lemma NewSinkOk<H>(v: Ports<H>, k: nat)
    requires Ok(v) && k !in v.sinks && k !in v.dead && forall p :: p in v.sources ==> k !in v.sources[p].keys
    ensures Ok(v.(sinks := v.sinks[k := []]))
  {
    hide Entries, Alive;
    forall p | p in v.sources ensures Occurs(v.sources[p].keys, k) == 0 { OccursNone(v.sources[p].keys, k); }
  }

  /** add_handler: both vectors grow, and a sink that supports it gets a breaker. */
  function Connected<H>(v: Ports<H>, p: nat, k: nat, h: H): Ports<H>
    requires p in v.sources && p in v.history && v.sources[p].callback.Some?
  {
    var a := v.sources[p];
    v.(sources := v.sources[p := a.(handlers := a.handlers + [h], keys := a.keys + [k])],
       sinks := if k in v.sinks then v.sinks[k := v.sinks[k] + [a.callback.value]] else v.sinks,
       history := v.history[p := v.history[p] + [Entry(k, h)]])
  }

  lemma ConnectCounted<H>(v: Ports<H>, p: nat, k: nat, h: H)
    requires Ok(v) && p in v.sources && p in v.history && v.sources[p].callback.Some?
    ensures Counted(Connected(v, p, k, h).sources, Connected(v, p, k, h).sinks)
  {
    hide Entries, Alive, Current, Occurs, Known;
    var n, a := Connected(v, p, k, h), v.sources[p];
    var cb := a.callback.value;
    forall q, j | q in n.sources && j in n.sinks
      ensures Occurs(n.sources[q].keys, j) == BreakersOf(n.sinks[j], n.sources[q].callback)
    {
      OccursConcat(a.keys, [k], j);
      OccursOne(k, j);
      if n.sources[q].callback.Some? {
        OccursConcat(v.sinks[j], [cb], n.sources[q].callback.value);
        OccursOne(cb, n.sources[q].callback.value);
      }
    }
  }

  lemma OccursOne(x: nat, k: nat)
    ensures Occurs([x], k) == if x == k then 1 else 0
  {
  }

  lemma ConnectCurrent<H>(v: Ports<H>, p: nat, k: nat, h: H)
    requires Ok(v) && p in v.sources && v.sources[p].callback.Some? && k !in v.dead
    ensures Aligned(Connected(v, p, k, h).sources) && Current(Connected(v, p, k, h))
  {
    hide Occurs, Counted, Bound, Known, Alive;
    var a := v.sources[p];
    AliveConcat(v.history[p], [Entry(k, h)], v.dead);
    AliveOne(Entry(k, h), v.dead);
    assert Entries(a.keys + [k], a.handlers + [h]) == Entries(a.keys, a.handlers) + [Entry(k, h)];
  }

  lemma AliveOne<H>(e: Entry<H>, dead: set<nat>)
    requires e.key !in dead
    ensures Alive([e], dead) == [e]
  {
  }

  lemma ConnectOk<H>(v: Ports<H>, p: nat, k: nat, h: H)
    requires Ok(v) && p in v.sources && v.sources[p].callback.Some? && k !in v.dead
    ensures Ok(Connected(v, p, k, h))
  {
    hide Occurs, Counted, Entries, Alive;
    ConnectCounted(v, p, k, h);
    ConnectCurrent(v, p, k, h);
  }

  /** The source and, with it, its callback are gone; breakers for it have expired. */
  function WithoutSource<H>(v: Ports<H>, p: nat): Ports<H>
    requires p in v.sources
  {
    v.(sources := v.sources - {p}, history := v.history - {p},
       callbacks := match v.sources[p].callback case None => v.callbacks case Some(cb) => v.callbacks - {cb})
  }

  lemma DestroySourceOk<H>(v: Ports<H>, p: nat)
    requires Ok(v) && p in v.sources
    ensures Ok(WithoutSource(v, p))
  {
    hide Occurs, Entries, Alive, Bound;
    DestroySourceBound(v, p);
  }

  lemma DestroySourceBound<H>(v: Ports<H>, p: nat)
    requires Bound(v.sources, v.callbacks) && p in v.sources
    ensures Bound(WithoutSource(v, p).sources, WithoutSource(v, p).callbacks)
  {
  }

  /** The move constructor: vectors and callback go to q, and the callback is bound to q. */
  function Moved<H>(v: Ports<H>, p: nat, q: nat): Ports<H>
    requires p in v.sources && p in v.history && v.sources[p].callback.Some?
  {
    v.(sources := v.sources[q := v.sources[p]][p := Source([], [], None)], callbacks := v.callbacks[v.sources[p].callback.value := q],
       history := v.history[q := v.history[p]][p := []])
  }

  lemma MoveBound<H>(v: Ports<H>, p: nat, q: nat)
    requires Bound(v.sources, v.callbacks) && p in v.sources && p in v.history && q !in v.sources && v.sources[p].callback.Some?
    ensures Bound(Moved(v, p, q).sources, Moved(v, p, q).callbacks) && v.sources[p].callback.value in v.callbacks
  {
  }

  lemma MoveCounted<H>(v: Ports<H>, p: nat, q: nat)
    requires Counted(v.sources, v.sinks) && p in v.sources && p in v.history && q !in v.sources && v.sources[p].callback.Some?
    ensures Counted(Moved(v, p, q).sources, v.sinks)
  {
    hide Occurs;
    forall k ensures Occurs([], k) == 0 { OccursNone([], k); }
  }

  lemma MoveOk<H>(v: Ports<H>, p: nat, q: nat)
    requires Ok(v) && p in v.sources && q !in v.sources && v.sources[p].callback.Some?
    ensures Ok(Moved(v, p, q))
  {
    hide Occurs, Entries, Alive, Bound, Counted;
    MoveBound(v, p, q);
    MoveCounted(v, p, q);
    Nothing<H>(v.dead);
  }

  // ---- the destructor of a sink --------------------------------------------------------------

  /** The sources while sink k goes through its breakers: rest are those it has still to call. */
  ghost predicate Dropping<H>(v: Ports<H>, now: map<nat, Source<H>>, k: nat, rest: seq<nat>)
    requires Aligned(v.sources)
  {
    && now.Keys == v.sources.Keys && Aligned(now)
    && forall p :: p in now ==>
         && now[p].callback == v.sources[p].callback
         && Without(Entries(now[p].keys, now[p].handlers), k) == Without(Entries(v.sources[p].keys, v.sources[p].handlers), k)
         && Occurs(now[p].keys, k) == BreakersOf(rest, now[p].callback)
         && forall j :: j != k ==> Occurs(now[p].keys, j) == Occurs(v.sources[p].keys, j)
  }

  function RemovedAt<H>(a: Source<H>, i: nat): Source<H>
    requires i < |a.keys| == |a.handlers|
  {
    a.(keys := Cut(a.keys, i), handlers := Cut(a.handlers, i))
  }

  lemma DroppingStarts<H>(v: Ports<H>, k: nat)
    requires Ok(v) && k in v.sinks
    ensures Dropping(v, v.sources, k, v.sinks[k])
  {
    hide Occurs, Entries, Without, Bound, Known, Current;
  }

  /** The callback is alive: its source holds the key, and loses one entry for it. */
  lemma DroppingFinds<H>(v: Ports<H>, now: map<nat, Source<H>>, k: nat, rest: seq<nat>)
    requires Ok(v) && Dropping(v, now, k, rest) && rest != [] && rest[0] in v.callbacks
    ensures v.callbacks[rest[0]] in now && k in now[v.callbacks[rest[0]]].keys
  {
    hide Entries, Without, Known, Current, Counted;
    var p := v.callbacks[rest[0]];
    OccursNone(now[p].keys, k);
  }

  lemma DroppingOne<H>(v: Ports<H>, now: map<nat, Source<H>>, k: nat, rest: seq<nat>, i: nat)
    requires Ok(v) && Dropping(v, now, k, rest) && rest != [] && rest[0] in v.callbacks && v.callbacks[rest[0]] in now
    requires i < |now[v.callbacks[rest[0]]].keys| && now[v.callbacks[rest[0]]].keys[i] == k
    ensures Dropping(v, now[v.callbacks[rest[0]] := RemovedAt(now[v.callbacks[rest[0]]], i)], k, rest[1..])
  {
    hide Entries, Without, Known, Current, Counted;
    var p := v.callbacks[rest[0]];
    CutOne(now[p].keys, now[p].handlers, i, k);
    var n := now[p := RemovedAt(now[p], i)];
    forall q | q in n ensures Occurs(n[q].keys, k) == BreakersOf(rest[1..], n[q].callback) {
      assert n[q].callback == v.sources[q].callback;
    }
  }

  /** The callback has expired: nothing to do. */
  lemma DroppingSkips<H>(v: Ports<H>, now: map<nat, Source<H>>, k: nat, rest: seq<nat>)
    requires Ok(v) && Dropping(v, now, k, rest) && rest != [] && rest[0] !in v.callbacks
    ensures Dropping(v, now, k, rest[1..])
  {
    hide Entries, Without, Known, Current, Counted;
    forall q | q in now ensures Occurs(now[q].keys, k) == BreakersOf(rest[1..], now[q].callback) {
      assert now[q].callback == v.sources[q].callback;
    }
  }

  function WithoutSink<H>(v: Ports<H>, now: map<nat, Source<H>>, k: nat): Ports<H> {
    v.(sources := now, sinks := v.sinks - {k}, dead := v.dead + {k})
  }

  lemma DroppedBound<H>(v: Ports<H>, now: map<nat, Source<H>>, k: nat)
    requires Ok(v) && Dropping(v, now, k, [])
    ensures Bound(now, v.callbacks) && Known(v.callbacks, v.sinks - {k}, v.made) && Counted(now, v.sinks - {k})
  {
    hide Without, Entries, Occurs, Current;
  }

  /** At the end every entry for the sink is gone, and no other. */
  lemma DroppedAll<H>(v: Ports<H>, now: map<nat, Source<H>>, k: nat, p: nat)
    requires Ok(v) && Dropping(v, now, k, []) && p in now
    ensures Entries(now[p].keys, now[p].handlers) == Without(Entries(v.sources[p].keys, v.sources[p].handlers), k)
  {
    hide Without, Known, Occurs, Current, Bound, Counted;
    OccursNone(now[p].keys, k);
    OccursEmpty(now[p].callback);
    NothingToDrop(Entries(now[p].keys, now[p].handlers), k);
  }

  lemma DroppingEnds<H>(v: Ports<H>, now: map<nat, Source<H>>, k: nat)
    requires Ok(v) && Dropping(v, now, k, []) && k in v.sinks
    ensures Ok(WithoutSink(v, now, k))
  {
    hide Without, Alive, Known, Occurs, Bound, Counted, Entries;
    DroppedBound(v, now, k);
    forall p | p in now ensures Entries(now[p].keys, now[p].handlers) == Alive(v.history[p], v.dead + {k}) {
      DroppedAll(v, now, k, p);
      AliveDies(v.history[p], v.dead, k);
    }
  }

  lemma OccursEmpty(callback: Option<nat>)
    ensures BreakersOf([], callback) == 0
  {
  }

  // ---- the ports as objects ------------------------------------------------------------------

  /** Every live event source and event sink. */
  class EventPorts<H> {
    var sources: map<nat, Source<H>>
    var callbacks: map<nat, nat>
    var sinks: map<nat, seq<nat>>
    var made: nat
    ghost var history: map<nat, seq<Entry<H>>>
    ghost var dead: set<nat>

    ghost function Value(): Ports<H>
      reads this
    {
      Ports(sources, callbacks, sinks, made, history, dead)
    }

    ghost predicate Valid()
      reads this
    {
      Ok(Value())
    }

    constructor ()
      ensures Valid() && Value() == Ports(map[], map[], map[], 0, map[], {})
    {
      sources, callbacks, sinks, made := map[], map[], map[], 0;
      history, dead := map[], {};
    }

    method NewSource(p: nat)
      requires Valid() && p !in sources
      modifies this
      ensures Valid() && history == old(history)[p := []] && dead == old(dead) && sinks == old(sinks)
      ensures sources == old(sources)[p := Source([], [], Some(old(made)))] && callbacks == old(callbacks)[old(made) := p] && made == old(made) + 1
    {
      hide Ok;
      NewSourceOk(Value(), p);
      sources, callbacks, made := sources[p := Source([], [], Some(made))], callbacks[made := p], made + 1;
      history := history[p := []];
    }

    method NewSink(k: nat)
      requires Valid() && k !in sinks && k !in dead && forall p :: p in sources ==> k !in sources[p].keys
      modifies this
      ensures Valid() && sinks == old(sinks)[k := []] && sources == old(sources) && history == old(history) && dead == old(dead)
      ensures callbacks == old(callbacks) && made == old(made)
    {
      hide Ok;
      NewSinkOk(Value(), k);
      sinks := sinks[k := []];
    }

    /** connect; k may be a passive port, or a connectable that takes no callback. */
    method Connect(p: nat, k: nat, h: H)
      requires Valid() && p in sources && sources[p].callback.Some? && k !in dead
      modifies this
      ensures Valid() && history == old(history)[p := old(history)[p] + [Entry(k, h)]] && dead == old(dead)
      ensures sinks.Keys == old(sinks.Keys) && forall q :: q in old(sources) && q != p ==> q in sources && sources[q] == old(sources[q])
    {
      hide Bound, Known, Counted, Entries, Alive;
      ConnectOk(Value(), p, k, h);
      var a := sources[p];
      sources := sources[p := a.(handlers := a.handlers + [h], keys := a.keys + [k])];
      if k in sinks {
        sinks := sinks[k := sinks[k] + [a.callback.value]];
      }
      history := history[p := history[p] + [Entry(k, h)]];
    }

    /** The body of a callback: remove_handler in the source it is bound to. */
    method RemoveHandler(p: nat, k: nat) returns (ghost i: nat)
      requires p in sources && |sources[p].keys| == |sources[p].handlers| && k in sources[p].keys
      modifies this`sources
      ensures i < |old(sources[p].keys)| && old(sources[p].keys)[i] == k && sources == old(sources)[p := RemovedAt(old(sources)[p], i)]
    {
      var a := sources[p];
      var at := FindKey(a.keys, k);
      i := at;
      sources := sources[p := a.(keys := a.keys[..at] + a.keys[at + 1..], handlers := a.handlers[..at] + a.handlers[at + 1..])];
    }

    /** ~event_sink: every source loses exactly its entries for the sink. */
    method DestroySink(k: nat)
      requires Valid() && k in sinks
      modifies this
      ensures Valid() && k !in sinks && dead == old(dead) + {k} && history == old(history) && sources.Keys == old(sources.Keys)
      ensures forall p :: p in sources ==>
        && |sources[p].keys| == |sources[p].handlers| && |old(sources[p].keys)| == |old(sources[p].handlers)|
        && Entries(sources[p].keys, sources[p].handlers) == Without(Entries(old(sources[p].keys), old(sources[p].handlers)), k)
    {
      hide Bound, Known, Counted, Entries, Alive, Current, Without, Occurs;
      ghost var v := Value();
      var breakers := sinks[k];
      DroppingStarts(v, k);
      assert breakers[0..] == breakers;
      for i := 0 to |breakers|
        invariant Value() == v.(sources := sources) && Dropping(v, sources, k, breakers[i..])
      {
        assert breakers[i..][0] == breakers[i] && breakers[i..][1..] == breakers[i + 1..];
        if breakers[i] in callbacks {
          DroppingFinds(v, sources, k, breakers[i..]);
          ghost var before := sources;
          ghost var at := RemoveHandler(callbacks[breakers[i]], k);
          DroppingOne(v, before, k, breakers[i..], at);
        } else {
          DroppingSkips(v, sources, k, breakers[i..]);
        }
      }
      DroppingEnds(v, sources, k);
      forall p | p in sources
        ensures Entries(sources[p].keys, sources[p].handlers) == Without(Entries(v.sources[p].keys, v.sources[p].handlers), k)
      {
        DroppedAll(v, sources, k, p);
      }
      sinks := sinks - {k};
      dead := dead + {k};
    }

    method DestroySource(p: nat)
      requires Valid() && p in sources
      modifies this
      ensures Valid() && sources == old(sources) - {p} && history == old(history) - {p} && sinks == old(sinks) && dead == old(dead)
      ensures made == old(made) && callbacks == match old(sources)[p].callback case None => old(callbacks) case Some(cb) => old(callbacks) - {cb}
    {
      hide Ok;
      DestroySourceOk(Value(), p);
      if sources[p].callback.Some? {
        callbacks := callbacks - {sources[p].callback.value};
      }
      sources := sources - {p};
      history := history - {p};
    }

    /** The move constructor: q takes over everything, and p is left without connections. */
    method MoveSource(p: nat, q: nat)
      requires Valid() && p in sources && q !in sources && sources[p].callback.Some?
      modifies this
      ensures Valid() && sinks == old(sinks) && dead == old(dead) && history == old(history)[q := old(history)[p]][p := []]
      ensures sources == old(sources)[q := old(sources)[p]][p := Source([], [], None)]
      ensures made == old(made) && callbacks == old(callbacks)[old(sources)[p].callback.value := q]
    {
      hide Bound, Known, Counted, Entries, Alive;
      MoveOk(Value(), p, q);
      var a := sources[p];
      sources, callbacks := sources[q := a][p := Source([], [], None)], callbacks[a.callback.value := q];
      history := history[q := history[p]][p := []];
    }

    /** fire calls exactly the connections to live sinks, in the order they were made. */
    method Fire(p: nat) returns (called: seq<H>)
      requires Valid() && p in sources
      ensures p in history && |called| == |Alive(history[p], dead)|
      ensures forall i :: 0 <= i < |called| ==> called[i] == Alive(history[p], dead)[i].handler
    {
      hide Bound, Known, Counted, Alive;
      called := [];
      for i := 0 to |sources[p].handlers|
        invariant called == sources[p].handlers[..i]
      {
        called := called + [sources[p].handlers[i]];
      }
      assert |Entries(sources[p].keys, sources[p].handlers)| == |called|;
      assert forall i :: 0 <= i < |called| ==> Entries(sources[p].keys, sources[p].handlers)[i].handler == called[i];
    }

    method NrConnectedHandlers(p: nat) returns (n: nat)
      requires Valid() && p in sources
      ensures p in history && n == |Alive(history[p], dead)|
    {
      hide Bound, Known, Counted, Alive;
      n := |sources[p].handlers|;
      assert |Entries(sources[p].keys, sources[p].handlers)| == n;
    }
  }
}
