/**
 * Chains built with operator >>.  Whenever a grouping of the operands completes a chain, the active
 * port receives the connectables in the order in which they were written: two groupings that
 * complete mean the same and record the same edges in the connection graph.  And which chains
 * every grouping completes.
 */
module ConnectionChains {
  import opened PortEntries

  /**
   * A connectable: whether it can be called without an argument and whether it returns void, the
   * entry of the connection graph it stands for if it is graph-aware, and what a call does to the
   * world w and with its argument v.  A void argument or result is a value that nobody looks at.
   */
  datatype Leaf<!W, !V> = Leaf(takesVoid: bool, returnsVoid: bool, info: Option<nat>, call: (W, V) -> (W, V))

  /** connection<source, sink>, nested. */
  datatype Conn<!W, !V> = One(leaf: Leaf<W, V>) | Pair(source: Conn<W, V>, sink: Conn<W, V>)

  /** A port that pushes is at the beginning of its chain, one that pulls at the end. */
  datatype Side = First | Last

  datatype Active = Active(id: nat, side: Side, info: Option<nat>)

  // ---- what operator >> returns --------------------------------------------------------------

  /** An operand: plain connectables, an active port, or an expression in parentheses. */
  datatype Expr<!W, !V> = Plain(leaf: Leaf<W, V>) | Port(port: Active) | Op(left: Expr<W, V>, right: Expr<W, V>)

  datatype Value<!W, !V> =
    | Chain(conn: Conn<W, V>)
    | Bare(port: Active)
    | Proxy(port: Active, conn: Conn<W, V>)
    | Complete(port: Active, conn: Conn<W, V>)
    | Illegal

  predicate IsPassiveSink<W, V>(c: Conn<W, V>) {
    match c
    case One(l) => l.returnsVoid
    case Pair(_, sink) => IsPassiveSink(sink)
  }

  predicate IsPassiveSource<W, V>(c: Conn<W, V>) {
    match c
    case One(l) => l.takesVoid
    case Pair(source, _) => IsPassiveSource(source)
  }

  /** The passive end that completes a connection of the port. */
  predicate Ends<W, V>(side: Side, c: Conn<W, V>) {
    if side == First then IsPassiveSink(c) else IsPassiveSource(c)
  }

  /** The ordering policies active_source_first and active_sink_first. */
  function Ordered<W, V>(side: Side, stored: Conn<W, V>, added: Conn<W, V>): Conn<W, V> {
    if side == First then Pair(stored, added) else Pair(added, stored)
  }

  /** connect_impl for an active operand, on its own side, and a passive one. */
  function ConnectActive<W, V>(active: Value<W, V>, c: Conn<W, V>): Value<W, V> {
    match active
    case Bare(a) => if Ends(a.side, c) then Complete(a, c) else Proxy(a, c)
    case Proxy(a, stored) =>
      var joined := Ordered(a.side, stored, c);
      if IsPassiveSource(c) || Ends(a.side, c) then Complete(a, joined) else Proxy(a, joined)
    case _ => Illegal
  }

  predicate IsActive<W, V>(v: Value<W, V>, side: Side) { (v.Bare? || v.Proxy?) && v.port.side == side }

  function Connect<W, V>(l: Value<W, V>, r: Value<W, V>): Value<W, V> {
    if IsActive(l, First) && r.Chain? then ConnectActive(l, r.conn)
    else if l.Chain? && IsActive(r, Last) then ConnectActive(r, l.conn)
    else if l.Chain? && r.Chain? then Chain(Pair(l.conn, r.conn))
    else Illegal
  }

  function Eval<W, V>(e: Expr<W, V>): Value<W, V> {
    match e
    case Plain(l) => Chain(One(l))
    case Port(a) => Bare(a)
    case Op(l, r) => Connect(Eval(l), Eval(r))
  }

  // ---- what a chain means --------------------------------------------------------------------

  /** invoke_helper: the source is called, then the sink with its result. */
  function Call<W, V>(c: Conn<W, V>, w: W, v: V): (W, V) {
    match c
    case One(l) => l.call(w, v)
    case Pair(source, sink) => var x := Call(source, w, v); Call(sink, x.0, x.1)
  }

  /** apply visits source and sink in this order. */
  function Leaves<W, V>(c: Conn<W, V>): (s: seq<Leaf<W, V>>)
    ensures s != []
  {
    match c
    case One(l) => [l]
    case Pair(source, sink) => Leaves(source) + Leaves(sink)
  }

  /** The connectables of a list one after the other. */
  function CallAll<W, V>(ls: seq<Leaf<W, V>>, w: W, v: V): (W, V) {
    if ls == [] then (w, v) else var x := ls[0].call(w, v); CallAll(ls[1..], x.0, x.1)
  }

  lemma {:induction false} CallAllConcat<W, V>(a: seq<Leaf<W, V>>, b: seq<Leaf<W, V>>, w: W, v: V)
    ensures CallAll(a + b, w, v) == var x := CallAll(a, w, v); CallAll(b, x.0, x.1)
  {
    if a == [] {
      assert a + b == b;
    } else {
      var x := a[0].call(w, v);
      assert (a + b)[1..] == a[1..] + b;
      CallAllConcat(a[1..], b, x.0, x.1);
    }
  }

  /** A connection means its connectables called in order, whatever its nesting. */
  lemma {:induction false} CallMeaning<W, V>(c: Conn<W, V>, w: W, v: V)
    ensures Call(c, w, v) == CallAll(Leaves(c), w, v)
  {
    match c
    case One(l) => assert CallAll([l], w, v) == l.call(w, v);
    case Pair(source, sink) =>
      var x := Call(source, w, v);
      CallMeaning(source, w, v);
      CallMeaning(sink, x.0, x.1);
      CallAllConcat(Leaves(source), Leaves(sink), w, v);
  }

  /** What calling a list means: every connectable gets what the one before it returned. */
  lemma {:induction false} CallsInOrder<W, V>(ls: seq<Leaf<W, V>>, w: W, v: V) returns (trace: seq<(W, V)>)
    ensures |trace| == |ls| + 1 && trace[0] == (w, v) && trace[|ls|] == CallAll(ls, w, v)
    ensures forall i :: 0 <= i < |ls| ==> trace[i + 1] == ls[i].call(trace[i].0, trace[i].1)
  {
    if ls == [] {
      trace := [(w, v)];
    } else {
      var x := ls[0].call(w, v);
      var rest := CallsInOrder(ls[1..], x.0, x.1);
      trace := [(w, v)] + rest;
      forall i | 0 <= i < |ls| ensures trace[i + 1] == ls[i].call(trace[i].0, trace[i].1) {
        if i > 0 { assert ls[i] == ls[1..][i - 1] && trace[i + 1] == rest[i] && trace[i] == rest[i - 1]; }
      }
    }
  }

  lemma {:induction false} EndKinds<W, V>(c: Conn<W, V>)
    ensures IsPassiveSource(c) <==> Leaves(c)[0].takesVoid
    ensures IsPassiveSink(c) <==> Leaves(c)[|Leaves(c)| - 1].returnsVoid
  {
    if c.Pair? {
      EndKinds(c.source);
      EndKinds(c.sink);
    }
  }

  // ---- groupings that complete ---------------------------------------------------------------

  datatype Operand<!W, !V> = Item(leaf: Leaf<W, V>) | End(port: Active)

  /** The operands from left to right, without their grouping. */
  function Operands<W, V>(e: Expr<W, V>): (s: seq<Operand<W, V>>)
    ensures s != []
  {
    match e
    case Plain(l) => [Item(l)]
    case Port(a) => [End(a)]
    case Op(l, r) => Operands(l) + Operands(r)
  }

  function Items<W, V>(ls: seq<Leaf<W, V>>): seq<Operand<W, V>> {
    seq(|ls|, i requires 0 <= i < |ls| => Item(ls[i]))
  }

  /** A chain as it is written down, the active port at its end. */
  function Written<W, V>(a: Active, ls: seq<Leaf<W, V>>): seq<Operand<W, V>> {
    if a.side == First then [End(a)] + Items(ls) else Items(ls) + [End(a)]
  }

  lemma ItemsJoin<W, V>(x: seq<Leaf<W, V>>, y: seq<Leaf<W, V>>)
    ensures Items(x + y) == Items(x) + Items(y)
  {
  }

  lemma ItemsInjective<W, V>(x: seq<Leaf<W, V>>, y: seq<Leaf<W, V>>)
    requires Items(x) == Items(y)
    ensures x == y
  {
    assert |x| == |Items(x)| == |Items(y)| == |y|;
    forall i | 0 <= i < |x| ensures x[i] == y[i] {
      assert Items(x)[i] == Item(x[i]) && Items(y)[i] == Item(y[i]);
    }
  }

  /** What stands beside each other in a value is what was written. */
  ghost predicate Spells<W, V>(v: Value<W, V>, ops: seq<Operand<W, V>>) {
    match v
    case Chain(c) => ops == Items(Leaves(c))
    case Bare(a) => ops == [End(a)]
    case Proxy(a, c) => ops == Written(a, Leaves(c))
    case Complete(a, c) => ops == Written(a, Leaves(c))
    case Illegal => true
  }

  lemma SpellsConnect<W, V>(l: Value<W, V>, r: Value<W, V>, x: seq<Operand<W, V>>, y: seq<Operand<W, V>>)
    requires Spells(l, x) && Spells(r, y)
    ensures Spells(Connect(l, r), x + y)
  {
    hide Items;
    if l.Chain? && r.Chain? {
      ItemsJoin(Leaves(l.conn), Leaves(r.conn));
    } else if IsActive(l, First) && r.Chain? && l.Proxy? {
      ItemsJoin(Leaves(l.conn), Leaves(r.conn));
      assert x + y == [End(l.port)] + (Items(Leaves(l.conn)) + y);
    } else if l.Chain? && IsActive(r, Last) && r.Proxy? {
      ItemsJoin(Leaves(l.conn), Leaves(r.conn));
      assert x + y == (x + Items(Leaves(r.conn))) + [End(r.port)];
    }
  }

  /** Whatever the grouping, a value holds the operands in the order in which they were written. */
  lemma {:induction false} AsWritten<W, V>(e: Expr<W, V>)
    ensures Spells(Eval(e), Operands(e))
  {
    match e
    case Plain(l) => assert Items([l]) == [Item(l)];
    case Port(_) =>
    case Op(l, r) =>
      AsWritten(l);
      AsWritten(r);
      SpellsConnect(Eval(l), Eval(r), Operands(l), Operands(r));
  }

  lemma WrittenInjective<W, V>(a: Active, x: seq<Leaf<W, V>>, b: Active, y: seq<Leaf<W, V>>)
    requires x != [] && y != [] && Written(a, x) == Written(b, y)
    ensures a == b && x == y
  {
    var u, v := Written(a, x), Written(b, y);
    assert u[0] == (if a.side == First then End(a) else Item(x[0]));
    assert v[0] == (if b.side == First then End(b) else Item(y[0]));
    if a.side == First {
      assert u[1..] == Items(x) && v[1..] == Items(y);
    } else {
      assert u[|u| - 1] == End(a) && v[|v| - 1] == End(b);
      assert u[..|u| - 1] == Items(x) && v[..|v| - 1] == Items(y);
    }
    ItemsInjective(x, y);
  }

  /** Two groupings of the same operands that complete connect the same port with the same chain. */
  lemma SameConnection<W, V>(e: Expr<W, V>, f: Expr<W, V>)
    requires Operands(e) == Operands(f) && Eval(e).Complete? && Eval(f).Complete?
    ensures Eval(e).port == Eval(f).port && Leaves(Eval(e).conn) == Leaves(Eval(f).conn)
    ensures Operands(e) == Written(Eval(e).port, Leaves(Eval(e).conn))
  {
    hide Written, Items, Leaves, Eval;
    AsWritten(e);
    AsWritten(f);
    WrittenInjective(Eval(e).port, Leaves(Eval(e).conn), Eval(f).port, Leaves(Eval(f).conn));
  }

  /** Two groupings that complete do the same when called: the connectables as they were written. */
  lemma SameMeaning<W, V>(e: Expr<W, V>, f: Expr<W, V>, w: W, v: V)
    requires Operands(e) == Operands(f) && Eval(e).Complete? && Eval(f).Complete?
    ensures Call(Eval(e).conn, w, v) == Call(Eval(f).conn, w, v) == CallAll(Connectables(Operands(e)), w, v)
  {
    hide Call, CallAll, Leaves, Eval, Written, Operands, Connectables;
    SameConnection(e, f);
    ConnectablesWritten(Eval(e).port, Leaves(Eval(e).conn));
    CallMeaning(Eval(e).conn, w, v);
    CallMeaning(Eval(f).conn, w, v);
  }

  /** The connectables among the operands. */
  function Connectables<W, V>(ops: seq<Operand<W, V>>): seq<Leaf<W, V>> {
    if ops == [] then [] else (if ops[0].Item? then [ops[0].leaf] else []) + Connectables(ops[1..])
  }

  lemma ConnectablesFirst<W, V>(ops: seq<Operand<W, V>>)
    requires ops != []
    ensures Connectables(ops) == (if ops[0].Item? then [ops[0].leaf] else []) + Connectables(ops[1..])
  {
  }

  ghost function NoPort<W, V>(): Operand<W, V> -> bool { (x: Operand<W, V>) => x.Item? }

  ghost function ItsLeaf<W, V>(): (Operand<W, V>, Leaf<W, V>) -> bool { (x: Operand<W, V>, y: Leaf<W, V>) => x.Item? && y == x.leaf }

  lemma {:induction false} ConnectablesSelects<W, V>(ops: seq<Operand<W, V>>) returns (at: seq<nat>)
    ensures Selects(at, ops, NoPort(), Connectables(ops), ItsLeaf())
  {
    if ops == [] {
      at := [];
    } else {
      hide Connectables, Selects;
      var rest := ConnectablesSelects(ops[1..]);
      ConnectablesFirst(ops);
      at := SelectsMore(rest, ops[0], ops[1..], NoPort(), if ops[0].Item? then [ops[0].leaf] else [], Connectables(ops[1..]), ItsLeaf());
      assert [ops[0]] + ops[1..] == ops;
    }
  }

  /** They are exactly the operands that are no port, in their order. */
  lemma ConnectablesAt<W, V>(ops: seq<Operand<W, V>>) returns (at: seq<nat>)
    ensures Positions(at, |ops|) && |at| == |Connectables(ops)|
    ensures forall i: nat :: i < |ops| ==> (i in at <==> ops[i].Item?)
    ensures forall k :: 0 <= k < |at| ==> ops[at[k]].Item? && Connectables(ops)[k] == ops[at[k]].leaf
  {
    hide Connectables, Positions;
    at := ConnectablesSelects(ops);
  }

  lemma {:induction false} ConnectablesItems<W, V>(ls: seq<Leaf<W, V>>, end: seq<Operand<W, V>>)
    requires end == [] || (|end| == 1 && end[0].End?)
    ensures Connectables(Items(ls) + end) == ls
  {
    var ops := Items(ls) + end;
    if ls == [] {
      assert ops == end;
    } else {
      assert ops[0] == Item(ls[0]) && ops[1..] == Items(ls[1..]) + end;
      ConnectablesItems(ls[1..], end);
    }
  }

  lemma ConnectablesWritten<W, V>(a: Active, ls: seq<Leaf<W, V>>)
    ensures Connectables(Written(a, ls)) == ls
  {
    if a.side == First {
      assert ([End(a)] + Items(ls))[1..] == Items(ls) + [];
      ConnectablesItems(ls, []);
    } else {
      ConnectablesItems(ls, [End(a)]);
    }
  }

  /** What >> means: what stands on the left is called first, and the right gets its result. */
  lemma LeftThenRight<W, V>(l: Expr<W, V>, r: Expr<W, V>, w: W, v: V)
    requires Eval(Op(l, r)).Chain? || ((Eval(Op(l, r)).Proxy? || Eval(Op(l, r)).Complete?) && !Eval(l).Bare? && !Eval(r).Bare?)
    ensures Eval(l).Chain? || Eval(l).Proxy?
    ensures Eval(r).Chain? || Eval(r).Proxy?
    ensures Call(Eval(Op(l, r)).conn, w, v) == var x := Call(Eval(l).conn, w, v); Call(Eval(r).conn, x.0, x.1)
  {
  }

  /** A single connectable at a port: the connection is complete, or waits for more. */
  lemma OneConnectable<W, V>(a: Active, x: Leaf<W, V>)
    ensures a.side == First ==> Eval(Op(Port(a), Plain(x))) == if x.returnsVoid then Complete(a, One(x)) else Proxy(a, One(x))
    ensures a.side == Last ==> Eval(Op(Plain(x), Port(a))) == if x.takesVoid then Complete(a, One(x)) else Proxy(a, One(x))
    ensures a.side == First ==> Eval(Op(Plain(x), Port(a))) == Illegal
    ensures a.side == Last ==> Eval(Op(Port(a), Plain(x))) == Illegal
  {
  }

  // ---- chains that every grouping completes --------------------------------------------------

  /** Connectables that can be added to a port one after the other without completing its chain. */
  ghost predicate Open<W, V>(side: Side, ls: seq<Leaf<W, V>>) {
    if side == First then forall i :: 0 <= i < |ls| ==> !ls[i].returnsVoid && (i > 0 ==> !ls[i].takesVoid)
    else forall i :: 0 <= i < |ls| ==> !ls[i].takesVoid
  }

  /** A passive end that completes the chain, and nothing before it that does. */
  ghost predicate Legal<W, V>(side: Side, ls: seq<Leaf<W, V>>) {
    && ls != []
    && if side == First then ls[|ls| - 1].returnsVoid && Open(First, ls[..|ls| - 1]) else ls[0].takesVoid && Open(Last, ls[1..])
  }

  lemma ItemsConcat<W, V>(x: seq<Operand<W, V>>, y: seq<Operand<W, V>>, ls: seq<Leaf<W, V>>)
    requires x + y == Items(ls)
    ensures |x| <= |ls| && x == Items(ls[..|x|]) && y == Items(ls[|x|..])
  {
    assert |x| + |y| == |ls|;
    assert forall i :: 0 <= i < |x| ==> x[i] == (x + y)[i];
    assert forall i :: 0 <= i < |y| ==> y[i] == (x + y)[|x| + i];
  }

  /** Operands without an active port become one connection. */
  lemma {:induction false} EvalChain<W, V>(e: Expr<W, V>, ls: seq<Leaf<W, V>>)
    requires Operands(e) == Items(ls)
    ensures ls != [] && Eval(e).Chain? && Leaves(Eval(e).conn) == ls
  {
    assert |Items(ls)| == |ls| && Operands(e)[0] == Item(ls[0]);
    match e
    case Plain(_) =>
    case Port(_) =>
    case Op(l, r) =>
      ItemsConcat(Operands(l), Operands(r), ls);
      EvalChain(l, ls[..|Operands(l)|]);
      EvalChain(r, ls[|Operands(l)|..]);
  }

  /** The last >> of a chain whose port is written first. */
  lemma SplitFirst<W, V>(l: Expr<W, V>, r: Expr<W, V>, a: Active, ls: seq<Leaf<W, V>>) returns (m: nat)
    requires Operands(Op(l, r)) == [End(a)] + Items(ls)
    ensures m < |ls| && Operands(l) == [End(a)] + Items(ls[..m]) && Operands(r) == Items(ls[m..])
  {
    var x, y := Operands(l), Operands(r);
    m := |x| - 1;
    assert x[0] == (x + y)[0] == End(a) && x == [End(a)] + x[1..];
    assert x[1..] + y == (x + y)[1..] == Items(ls);
    ItemsConcat(x[1..], y, ls);
    assert |Items(ls[m..])| == |ls| - m;
  }

  lemma SplitLast<W, V>(l: Expr<W, V>, r: Expr<W, V>, a: Active, ls: seq<Leaf<W, V>>) returns (m: nat)
    requires Operands(Op(l, r)) == Items(ls) + [End(a)]
    ensures 0 < m <= |ls| && Operands(l) == Items(ls[..m]) && Operands(r) == Items(ls[m..]) + [End(a)]
  {
    var x, y := Operands(l), Operands(r);
    m := |x|;
    var n := |y| - 1;
    assert y[n] == (x + y)[m + n] == End(a) && y == y[..n] + [End(a)];
    assert x + y[..n] == (x + y)[..m + n] == Items(ls);
    ItemsConcat(x, y[..n], ls);
  }

  /** What open connectables beside a port have become. */
  ghost predicate Pending<W, V>(v: Value<W, V>, a: Active, ls: seq<Leaf<W, V>>) {
    if ls == [] then v == Bare(a) else v.Proxy? && v.port == a && Leaves(v.conn) == ls
  }

  /** The value holds port and connectables, and is complete exactly if it is meant to be. */
  ghost predicate Joined<W, V>(v: Value<W, V>, a: Active, ls: seq<Leaf<W, V>>, complete: bool) {
    (if complete then v.Complete? else v.Proxy?) && v.port == a && Leaves(v.conn) == ls
  }

  lemma ToBare<W, V>(a: Active, c: Conn<W, V>)
    ensures Joined(ConnectActive(Bare(a), c), a, Leaves(c), Ends(a.side, c))
  {
  }

  lemma ToProxy<W, V>(a: Active, stored: Conn<W, V>, c: Conn<W, V>)
    ensures Joined(ConnectActive(Proxy(a, stored), c), a, Leaves(Ordered(a.side, stored, c)), IsPassiveSource(c) || Ends(a.side, c))
  {
  }

  lemma OrderedLeaves<W, V>(side: Side, stored: Conn<W, V>, c: Conn<W, V>)
    ensures Leaves(Ordered(side, stored, c)) == if side == First then Leaves(stored) + Leaves(c) else Leaves(c) + Leaves(stored)
  {
  }

  lemma AddFirst<W, V>(v: Value<W, V>, a: Active, ls: seq<Leaf<W, V>>, m: nat, c: Conn<W, V>)
    requires a.side == First && m < |ls| && Pending(v, a, ls[..m]) && Leaves(c) == ls[m..]
    ensures Joined(Connect(v, Chain(c)), a, ls, ls[|ls| - 1].returnsVoid || (m > 0 && ls[m].takesVoid))
  {
    hide IsPassiveSource, IsPassiveSink, Leaves, ConnectActive, Ordered, Joined;
    EndKinds(c);
    assert ls == ls[..m] + ls[m..];
    if m == 0 {
      ToBare(a, c);
    } else {
      ToProxy(a, v.conn, c);
      OrderedLeaves(First, v.conn, c);
    }
  }

  lemma AddLast<W, V>(v: Value<W, V>, a: Active, ls: seq<Leaf<W, V>>, m: nat, c: Conn<W, V>)
    requires a.side == Last && 0 < m <= |ls| && Pending(v, a, ls[m..]) && Leaves(c) == ls[..m]
    ensures Joined(Connect(Chain(c), v), a, ls, ls[0].takesVoid)
  {
    hide IsPassiveSource, IsPassiveSink, Leaves, ConnectActive, Ordered, Joined;
    EndKinds(c);
    assert ls == ls[..m] + ls[m..];
    if m == |ls| {
      assert ls[..m] == ls;
      ToBare(a, c);
    } else {
      ToProxy(a, v.conn, c);
      OrderedLeaves(Last, v.conn, c);
    }
  }

  lemma {:induction false} EvalFirst<W, V>(e: Expr<W, V>, a: Active, ls: seq<Leaf<W, V>>)
    requires a.side == First && Operands(e) == [End(a)] + Items(ls) && Open(First, ls)
    ensures Pending(Eval(e), a, ls)
  {
    assert Operands(e)[0] == End(a) && |Operands(e)| == 1 + |ls|;
    match e
    case Plain(_) =>
    case Port(_) =>
    case Op(l, r) =>
      hide Items, Operands, Connect;
      var m := SplitFirst(l, r, a, ls);
      EvalFirst(l, a, ls[..m]);
      EvalChain(r, ls[m..]);
      AddFirst(Eval(l), a, ls, m, Eval(r).conn);
  }

  lemma {:induction false} EvalLast<W, V>(e: Expr<W, V>, a: Active, ls: seq<Leaf<W, V>>)
    requires a.side == Last && Operands(e) == Items(ls) + [End(a)] && Open(Last, ls)
    ensures Pending(Eval(e), a, ls)
  {
    assert Operands(e)[|ls|] == End(a) && |Operands(e)| == 1 + |ls|;
    match e
    case Plain(_) =>
    case Port(_) =>
    case Op(l, r) =>
      hide Items, Operands, Connect;
      var m := SplitLast(l, r, a, ls);
      EvalChain(l, ls[..m]);
      EvalLast(r, a, ls[m..]);
      AddLast(Eval(r), a, ls, m, Eval(l).conn);
  }

  /** Every grouping of a legal chain completes it. */
  lemma AnyGrouping<W, V>(e: Expr<W, V>, a: Active, ls: seq<Leaf<W, V>>)
    requires Legal(a.side, ls) && Operands(e) == Written(a, ls)
    ensures Eval(e).Complete?
  {
    assert |Operands(e)| == 1 + |ls|;
    match e
    case Plain(_) =>
    case Port(_) =>
    case Op(l, r) =>
      hide Items, Operands, Connect, Pending;
      if a.side == First {
        var m := SplitFirst(l, r, a, ls);
        assert forall i :: 0 <= i < m ==> ls[i] == ls[..|ls| - 1][i];
        EvalFirst(l, a, ls[..m]);
        EvalChain(r, ls[m..]);
        AddFirst(Eval(l), a, ls, m, Eval(r).conn);
      } else {
        var m := SplitLast(l, r, a, ls);
        assert forall i :: m <= i < |ls| ==> ls[i] == ls[1..][i - 1];
        EvalChain(l, ls[..m]);
        EvalLast(r, a, ls[m..]);
        AddLast(Eval(r), a, ls, m, Eval(l).conn);
      }
  }

  /** The connectables of a list, grouped from the left. */
  function Row<W, V>(ls: seq<Leaf<W, V>>): Expr<W, V>
    requires ls != []
  {
    if |ls| == 1 then Plain(ls[0]) else Op(Row(ls[..|ls| - 1]), Plain(ls[|ls| - 1]))
  }

  lemma {:induction false} RowChain<W, V>(ls: seq<Leaf<W, V>>)
    requires ls != []
    ensures Operands(Row(ls)) == Items(ls) && Eval(Row(ls)).Chain? && Leaves(Eval(Row(ls)).conn) == ls
  {
    if |ls| > 1 {
      RowChain(ls[..|ls| - 1]);
    }
    assert Operands(Row(ls)) == Items(ls);
    EvalChain(Row(ls), ls);
  }

  /** The chain in two pieces beside its port, which are added one after the other. */
  function InTwo<W, V>(a: Active, ls: seq<Leaf<W, V>>, m: nat): Expr<W, V>
    requires 0 < m < |ls|
  {
    if a.side == First then Op(Op(Port(a), Row(ls[..m])), Row(ls[m..])) else Op(Row(ls[..m]), Op(Row(ls[m..]), Port(a)))
  }

  lemma InTwoValue<W, V>(a: Active, ls: seq<Leaf<W, V>>, m: nat)
    requires 0 < m < |ls|
    ensures Operands(InTwo(a, ls, m)) == Written(a, ls)
    ensures a.side == First && ls[m - 1].returnsVoid ==> Eval(InTwo(a, ls, m)).Illegal?
    ensures a.side == Last && ls[m].takesVoid ==> Eval(InTwo(a, ls, m)).Illegal?
  {
    hide Items, Row, Leaves;
    RowChain(ls[..m]);
    RowChain(ls[m..]);
    EndKinds(Eval(Row(ls[..m])).conn);
    EndKinds(Eval(Row(ls[m..])).conn);
    assert ls[..m] + ls[m..] == ls;
    ItemsJoin(ls[..m], ls[m..]);
    if a.side == First {
      var inner := Op(Port(a), Row(ls[..m]));
      assert Operands(inner) == [End(a)] + Items(ls[..m]) && Eval(inner) == Connect(Bare(a), Eval(Row(ls[..m])));
    } else {
      var inner := Op(Row(ls[m..]), Port(a));
      assert Operands(inner) == Items(ls[m..]) + [End(a)] && Eval(inner) == Connect(Eval(Row(ls[m..])), Bare(a));
    }
  }

  /** The chain of a pushing port in three pieces, the second of them a single connectable. */
  function InThree<W, V>(a: Active, ls: seq<Leaf<W, V>>, m: nat): Expr<W, V>
    requires 0 < m < |ls| - 1
  {
    Op(Op(Op(Port(a), Row(ls[..m])), Plain(ls[m])), Row(ls[m + 1..]))
  }

  lemma InThreeValue<W, V>(a: Active, ls: seq<Leaf<W, V>>, m: nat)
    requires a.side == First && 0 < m < |ls| - 1 && ls[m].takesVoid && !ls[m - 1].returnsVoid
    ensures Operands(InThree(a, ls, m)) == Written(a, ls) && Eval(InThree(a, ls, m)).Illegal?
  {
    hide Items, Row, Leaves;
    RowChain(ls[..m]);
    RowChain(ls[m + 1..]);
    EndKinds(Eval(Row(ls[..m])).conn);
    ItemsOne(ls[m]);
    assert ls[..m] + ([ls[m]] + ls[m + 1..]) == ls;
    ItemsJoin([ls[m]], ls[m + 1..]);
    ItemsJoin(ls[..m], [ls[m]] + ls[m + 1..]);
    var one := Op(Port(a), Row(ls[..m]));
    assert Operands(one) == [End(a)] + Items(ls[..m]) && Eval(one) == Connect(Bare(a), Eval(Row(ls[..m])));
    var two := Op(one, Plain(ls[m]));
    assert Operands(two) == Operands(one) + [Item(ls[m])] && Eval(two) == Connect(Eval(one), Chain(One(ls[m])));
    assert Eval(two).Complete?;
  }

  lemma ItemsOne<W, V>(l: Leaf<W, V>)
    ensures Items([l]) == [Item(l)]
  {
  }

  /** The chain in one piece beside its port. */
  function InOne<W, V>(a: Active, ls: seq<Leaf<W, V>>): Expr<W, V>
    requires ls != []
  {
    if a.side == First then Op(Port(a), Row(ls)) else Op(Row(ls), Port(a))
  }

  lemma InOneValue<W, V>(a: Active, ls: seq<Leaf<W, V>>)
    requires ls != []
    ensures Operands(InOne(a, ls)) == Written(a, ls)
    ensures Eval(InOne(a, ls)).Complete? <==> if a.side == First then ls[|ls| - 1].returnsVoid else ls[0].takesVoid
  {
    hide Items, Row, Leaves;
    RowChain(ls);
    EndKinds(Eval(Row(ls)).conn);
  }

  /** A chain that is not legal has a grouping that does not complete it. */
  lemma SomeGroupingFails<W, V>(a: Active, ls: seq<Leaf<W, V>>) returns (e: Expr<W, V>)
    requires !Legal(a.side, ls)
    ensures Operands(e) == Written(a, ls) && !Eval(e).Complete?
  {
    hide Items, Operands, Eval, InOne, InTwo, InThree;
    if ls == [] {
      e := Port(a);
      NoConnectables<W, V>(a);
      assert ls == [];
    } else if (a.side == First && !ls[|ls| - 1].returnsVoid) || (a.side == Last && !ls[0].takesVoid) {
      e := InOne(a, ls);
      InOneValue(a, ls);
    } else if a.side == Last {
      var i :| 0 <= i < |ls| - 1 && ls[1..][i].takesVoid;
      e := InTwo(a, ls, i + 1);
      InTwoValue(a, ls, i + 1);
    } else {
      e := FirstFails(a, ls);
    }
  }

  lemma NoConnectables<W, V>(a: Active)
    ensures Operands<W, V>(Port(a)) == Written(a, []) && Eval<W, V>(Port(a)).Bare?
  {
  }

  lemma FirstFails<W, V>(a: Active, ls: seq<Leaf<W, V>>) returns (e: Expr<W, V>)
    requires a.side == First && ls != [] && !Open(First, ls[..|ls| - 1])
    ensures Operands(e) == Written(a, ls) && !Eval(e).Complete?
  {
    hide Items, Operands, Eval, InTwo, InThree, Written;
    var s := ls[..|ls| - 1];
    var i :| 0 <= i < |s| && (s[i].returnsVoid || (i > 0 && s[i].takesVoid));
    if s[i].returnsVoid {
      e := InTwo(a, ls, i + 1);
      InTwoValue(a, ls, i + 1);
    } else if s[i - 1].returnsVoid {
      e := InTwo(a, ls, i);
      InTwoValue(a, ls, i);
    } else {
      e := InThree(a, ls, i);
      InThreeValue(a, ls, i);
    }
  }

  /** Exactly the legal chains are completed by every grouping. */
  lemma CompletesIff<W, V>(a: Active, ls: seq<Leaf<W, V>>)
    ensures Legal(a.side, ls) <==> forall e: Expr<W, V> :: Operands(e) == Written(a, ls) ==> Eval(e).Complete?
  {
    hide Legal, Written, Operands, Eval;
    if Legal(a.side, ls) {
      forall e: Expr<W, V> | Operands(e) == Written(a, ls) ensures Eval(e).Complete? { AnyGrouping(e, a, ls); }
    } else {
      var e := SomeGroupingFails(a, ls);
    }
  }

  /**
   * A connectable without an argument in the middle of a pushing chain: in one piece the chain is
   * complete, added from the left it is completed too early and the rest cannot be added.
   */
  lemma TooEarly<W, V>(a: Active, x: Leaf<W, V>, y: Leaf<W, V>, z: Leaf<W, V>) returns (e: Expr<W, V>, f: Expr<W, V>)
    requires a.side == First && !x.takesVoid && !x.returnsVoid && y.takesVoid && !y.returnsVoid && z.returnsVoid
    ensures e == Op(Port(a), Op(Op(Plain(x), Plain(y)), Plain(z))) && f == Op(Op(Op(Port(a), Plain(x)), Plain(y)), Plain(z))
    ensures Operands(e) == Operands(f) && Eval(e).Complete? && Eval(f).Illegal?
  {
    var ls := [x, y, z];
    assert ls[..1] == [x] && ls[2..] == [z] && ls[..2] == [x, y] && [x, y][..1] == [x];
    assert Row([x]) == Plain(x) && Row([z]) == Plain(z) && Row([x, y]) == Op(Plain(x), Plain(y));
    assert Row(ls) == Op(Row([x, y]), Plain(z));
    e, f := InOne(a, ls), InThree(a, ls, 1);
    hide Row, Operands, Eval;
    InOneValue(a, ls);
    InThreeValue(a, ls, 1);
  }

  // ---- edges of the connection graph ---------------------------------------------------------

  /** What an operand enters in the graph. */
  function GraphEntry(info: Option<nat>): seq<nat> { if info.Some? then [info.value] else [] }

  /** The graph-aware members of a list, in order. */
  function Aware<W, V>(ls: seq<Leaf<W, V>>): seq<nat> {
    if ls == [] then [] else GraphEntry(ls[0].info) + Aware(ls[1..])
  }

  lemma {:induction false} AwareConcat<W, V>(a: seq<Leaf<W, V>>, b: seq<Leaf<W, V>>)
    ensures Aware(a + b) == Aware(a) + Aware(b)
  {
    hide GraphEntry;
    if a == [] {
      assert a + b == b;
    } else {
      assert (a + b)[1..] == a[1..] + b;
      AwareConcat(a[1..], b);
      assert GraphEntry(a[0].info) + (Aware(a[1..]) + Aware(b)) == GraphEntry(a[0].info) + Aware(a[1..]) + Aware(b);
    }
  }

  lemma AwareFirst<W, V>(ls: seq<Leaf<W, V>>)
    requires ls != []
    ensures Aware(ls) == (if ls[0].info.Some? then [ls[0].info.value] else []) + Aware(ls[1..])
  {
  }

  ghost function HasEntry<W, V>(): Leaf<W, V> -> bool { (x: Leaf<W, V>) => x.info.Some? }

  ghost function ItsEntry<W, V>(): (Leaf<W, V>, nat) -> bool { (x: Leaf<W, V>, y: nat) => x.info == Some(y) }

  lemma {:induction false} AwareSelects<W, V>(ls: seq<Leaf<W, V>>) returns (at: seq<nat>)
    ensures Selects(at, ls, HasEntry(), Aware(ls), ItsEntry())
  {
    if ls == [] {
      at := [];
    } else {
      hide Aware, Selects;
      var rest := AwareSelects(ls[1..]);
      AwareFirst(ls);
      at := SelectsMore(rest, ls[0], ls[1..], HasEntry(), if ls[0].info.Some? then [ls[0].info.value] else [], Aware(ls[1..]), ItsEntry());
      assert [ls[0]] + ls[1..] == ls;
    }
  }

  /** The nodes are the entries of exactly the connectables that have one, in their order. */
  lemma AwareAt<W, V>(ls: seq<Leaf<W, V>>) returns (at: seq<nat>)
    ensures Positions(at, |ls|) && |at| == |Aware(ls)|
    ensures forall i: nat :: i < |ls| ==> (i in at <==> ls[i].info.Some?)
    ensures forall k :: 0 <= k < |at| ==> ls[at[k]].info == Some(Aware(ls)[k])
  {
    hide Aware, Positions;
    at := AwareSelects(ls);
  }

  function Consecutive(ns: seq<nat>): seq<(nat, nat)> {
    if |ns| < 2 then [] else seq(|ns| - 1, i requires 0 <= i < |ns| - 1 => (ns[i], ns[i + 1]))
  }

  /** apply with graph_adder: the nodes of the connection are appended to the list. */
  method Apply<W, V>(c: Conn<W, V>, nodes: seq<nat>) returns (r: seq<nat>)
    ensures r == nodes + Aware(Leaves(c))
  {
    match c
    case One(l) =>
      r := if l.info.Some? then nodes + [l.info.value] else nodes;
      assert Aware([l]) == if l.info.Some? then [l.info.value] else [];
    case Pair(source, sink) =>
      r := Apply(source, nodes);
      r := Apply(sink, r);
      AwareConcat(Leaves(source), Leaves(sink));
  }

  /** The nodes along a connection of a port with graph entry self. */
  function Along<W, V>(side: Side, self: nat, ls: seq<Leaf<W, V>>): seq<nat> {
    if side == First then [self] + Aware(ls) else Aware(ls) + [self]
  }

  lemma ConsecutiveAt(ns: seq<nat>, i: nat)
    requires 1 <= i < |ns|
    ensures i - 1 < |Consecutive(ns)| && Consecutive(ns)[..i] == Consecutive(ns)[..i - 1] + [(ns[i - 1], ns[i])]
  {
    assert Consecutive(ns)[i - 1] == (ns[i - 1], ns[i]);
  }

  /** The loop that adds an edge for each pair of neighbours. */
  method AddEdges(nodes: seq<nat>) returns (edges: seq<(nat, nat)>)
    ensures edges == Consecutive(nodes)
  {
    hide Consecutive;
    edges := [];
    NoPairs(nodes);
    if |nodes| >= 2 {
      for i := 1 to |nodes|
        invariant i - 1 <= |Consecutive(nodes)| && edges == Consecutive(nodes)[..i - 1]
      {
        ConsecutiveAt(nodes, i);
        edges := edges + [(nodes[i - 1], nodes[i])];
      }
    }
  }

  lemma NoPairs(ns: seq<nat>)
    ensures if |ns| < 2 then Consecutive(ns) == [] else |Consecutive(ns)| == |ns| - 1
  {
  }

  lemma PairAt(ns: seq<nat>, i: nat)
    requires i + 1 < |ns|
    ensures i < |Consecutive(ns)| && Consecutive(ns)[i] == (ns[i], ns[i + 1])
  {
  }

  method AddPorts(nodes: seq<nat>) returns (ports: seq<nat>)
    ensures ports == nodes
  {
    ports := [];
    for i := 0 to |nodes|
      invariant ports == nodes[..i]
    {
      ports := ports + [nodes[i]];
    }
  }

  /** add_event_connection and add_state_connection: an edge between neighbours, a port for each. */
  method AddConnection<W, V>(side: Side, self: nat, c: Conn<W, V>) returns (edges: seq<(nat, nat)>, ports: seq<nat>)
    ensures ports == if side == First then [self] + Aware(Leaves(c)) else Aware(Leaves(c)) + [self]
    ensures |edges| == |ports| - 1 && forall i :: 0 <= i < |edges| ==> edges[i] == (ports[i], ports[i + 1])
    ensures edges == Consecutive(Along(side, self, Leaves(c)))
  {
    hide Consecutive, Aware, Leaves;
    var nodes: seq<nat>;
    if side == First {
      nodes := Apply(c, [self]);
    } else {
      nodes := Apply(c, []);
      nodes := nodes + [self];
    }
    assert nodes == Along(side, self, Leaves(c));
    edges := AddEdges(nodes);
    ports := AddPorts(nodes);
    NoPairs(nodes);
    forall i | 0 <= i < |edges| ensures edges[i] == (ports[i], ports[i + 1]) { PairAt(nodes, i); }
  }

  /** The graph entries of the operands that have one, from left to right. */
  function Entered<W, V>(ops: seq<Operand<W, V>>): seq<nat> {
    if ops == [] then []
    else
      var info := if ops[0].Item? then ops[0].leaf.info else ops[0].port.info;
      GraphEntry(info) + Entered(ops[1..])
  }

  function InfoOf<W, V>(op: Operand<W, V>): Option<nat> { if op.Item? then op.leaf.info else op.port.info }

  lemma EnteredFirst<W, V>(ops: seq<Operand<W, V>>)
    requires ops != []
    ensures Entered(ops) == (if InfoOf(ops[0]).Some? then [InfoOf(ops[0]).value] else []) + Entered(ops[1..])
  {
  }

  ghost function IsEntered<W, V>(): Operand<W, V> -> bool { (x: Operand<W, V>) => InfoOf(x).Some? }

  ghost function EnteredAs<W, V>(): (Operand<W, V>, nat) -> bool { (x: Operand<W, V>, y: nat) => InfoOf(x) == Some(y) }

  lemma {:induction false} EnteredSelects<W, V>(ops: seq<Operand<W, V>>) returns (at: seq<nat>)
    ensures Selects(at, ops, IsEntered(), Entered(ops), EnteredAs())
  {
    if ops == [] {
      at := [];
    } else {
      hide Entered, Selects;
      var rest := EnteredSelects(ops[1..]);
      EnteredFirst(ops);
      at := SelectsMore(rest, ops[0], ops[1..], IsEntered(), if InfoOf(ops[0]).Some? then [InfoOf(ops[0]).value] else [], Entered(ops[1..]), EnteredAs());
      assert [ops[0]] + ops[1..] == ops;
    }
  }

  /** They are the entries of exactly the operands that have one, in their order. */
  lemma EnteredAt<W, V>(ops: seq<Operand<W, V>>) returns (at: seq<nat>)
    ensures Positions(at, |ops|) && |at| == |Entered(ops)|
    ensures forall i: nat :: i < |ops| ==> (i in at <==> InfoOf(ops[i]).Some?)
    ensures forall k :: 0 <= k < |at| ==> InfoOf(ops[at[k]]) == Some(Entered(ops)[k])
  {
    hide Entered, Positions;
    at := EnteredSelects(ops);
  }

  lemma {:induction false} EnteredItems<W, V>(ls: seq<Leaf<W, V>>, end: seq<Operand<W, V>>)
    ensures Entered(Items(ls) + end) == Aware(ls) + Entered(end)
  {
    hide GraphEntry;
    var ops := Items(ls) + end;
    if ls == [] {
      assert ops == end;
    } else {
      assert ops[0] == Item(ls[0]) && ops[1..] == Items(ls[1..]) + end;
      EnteredItems(ls[1..], end);
      assert GraphEntry(ls[0].info) + (Aware(ls[1..]) + Entered(end)) == GraphEntry(ls[0].info) + Aware(ls[1..]) + Entered(end);
    }
  }

  lemma EnteredWritten<W, V>(a: Active, ls: seq<Leaf<W, V>>)
    requires a.info.Some?
    ensures Entered(Written(a, ls)) == Along(a.side, a.info.value, ls)
  {
    assert Entered<W, V>([End(a)]) == [a.info.value];
    if a.side == First {
      assert ([End(a)] + Items(ls))[1..] == Items(ls) + [];
      EnteredItems(ls, []);
    } else {
      EnteredItems(ls, [End(a)]);
    }
  }

  /** Whenever a chain is complete, the graph gets the edges between neighbouring graph-aware operands. */
  lemma SameEdges<W, V>(e: Expr<W, V>)
    requires Eval(e).Complete? && Eval(e).port.info.Some?
    ensures var a := Eval(e).port;
      Consecutive(Along(a.side, a.info.value, Leaves(Eval(e).conn))) == Consecutive(Entered(Operands(e)))
  {
    hide Written, Entered, Along, Consecutive, Leaves, Eval, Operands;
    AsWritten(e);
    EnteredWritten(Eval(e).port, Leaves(Eval(e).conn));
  }
}
