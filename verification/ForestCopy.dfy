/**
 * insert of a range of siblings: a loop that inserts one leaf for every leading edge it passes
 * builds a copy of the whole range, unless the position is inside the range or at its end: then
 * the loop follows its own copies and does not end.
 */
module ForestCopies {
  import opened RoseForest
  import opened ForestLinks
  import opened Forests
  import opened ForestValues

  // ---- how many nodes are open ---------------------------------------------------------------

  ghost function Depth<N>(s: seq<Pos<N>>): int {
    if s == [] then 0 else (if s[0].leading then 1 else -1) + Depth(s[1..])
  }

  lemma {:induction false} DepthConcat<N>(a: seq<Pos<N>>, b: seq<Pos<N>>)
    ensures Depth(a + b) == Depth(a) + Depth(b)
  {
    if a == [] {
      assert a + b == b;
    } else {
      assert (a + b)[1..] == a[1..] + b;
      DepthConcat(a[1..], b);
    }
  }

  lemma DepthOne<N>(p: Pos<N>)
    ensures Depth([p]) == if p.leading then 1 else -1
  {
  }

  /** The word of a forest is balanced, and no prefix closes more than it opened. */
  lemma {:induction false} PrefixDepth<N>(ts: seq<Tree<N>>, m: nat)
    requires m <= |Words(ts)|
    ensures Depth(Words(ts)[..m]) >= 0 && (m < |Words(ts)| && !Words(ts)[m].leading ==> Depth(Words(ts)[..m]) > 0)
    ensures m == |Words(ts)| ==> Depth(Words(ts)[..m]) == 0
    decreases ts
  {
    if m > 0 {
      var t, w := ts[0], Words(ts);
      var c := Words(t.children);
      var open, close := [Pos(t.node, true)], [Pos(t.node, false)];
      DepthOne(open[0]);
      DepthOne(close[0]);
      if m <= |c| + 1 {
        assert w[..m] == open + c[..m - 1];
        DepthConcat(open, c[..m - 1]);
        PrefixDepth(t.children, m - 1);
        assert m <= |c| ==> w[m] == c[m - 1];
      } else {
        var rest, n := Words(ts[1..]), m - |c| - 2;
        assert w[..m] == Word(t) + rest[..n];
        DepthConcat(Word(t), rest[..n]);
        DepthConcat(open + c, close);
        DepthConcat(open, c);
        PrefixDepth(t.children, |c|);
        assert c[..|c|] == c;
        PrefixDepth(ts[1..], n);
        assert m < |w| ==> w[m] == rest[n];
      }
    }
  }

  /** A leaf put into trees that were put into a tree. */
  lemma NestedPlug<N>(t: Tree<N>, k: nat, cs: seq<Tree<N>>, j: nat, leaf: Tree<N>)
    requires 1 <= k < |Word(t)| && j <= |Words(cs)|
    ensures k + j < |Word(PlugTree(t, k, cs))|
    ensures PlugTree(PlugTree(t, k, cs), k + j, [leaf]) == PlugTree(t, k, PlugForest(cs, j, [leaf]))
  {
    hide PlugTree, PlugForest, Word, Words;
    var u, w := Words(cs), Word(t);
    PlugTreeWord(t, k, cs);
    var p := PlugTree(t, k, cs);
    PlugTreeWord(p, k + j, [leaf]);
    PlugForestWord(cs, j, [leaf]);
    var ds := PlugForest(cs, j, [leaf]);
    PlugTreeWord(t, k, ds);
    var x := Words([leaf]);
    assert InsertAt(InsertAt(w, k, u), k + j, x) == InsertAt(w, k, InsertAt(u, j, x));
    WordDetermines(PlugTree(p, k + j, [leaf]), PlugTree(t, k, ds));
  }

  // ---- the copy under construction -----------------------------------------------------------

  /** The trees cs stand in front of position k of t; u is behind us, v closes what is open. */
  ghost predicate Grown<T(0)>(root: Tree<Node<T>>, t: Tree<Node<T>>, k: nat, cs: seq<Tree<Node<T>>>, u: seq<Iter<T>>, v: seq<Iter<T>>) {
    1 <= k < |Word(t)| && root == PlugTree(t, k, cs) && Words(cs) == u + v
  }

  lemma GrownWord<T(0)>(root: Tree<Node<T>>, t: Tree<Node<T>>, k: nat, cs: seq<Tree<Node<T>>>, u: seq<Iter<T>>, v: seq<Iter<T>>)
    requires Grown(root, t, k, cs, u, v)
    ensures 1 <= k < |Word(t)| && Word(root) == Word(t)[..k] + u + (v + Word(t)[k..]) && Words(cs) == u + v && root == PlugTree(t, k, cs)
  {
    hide Word, PlugTree;
    PlugTreeWord(t, k, cs);
  }

  /** One leaf more. */
  lemma GrownLeaf<T(0)>(root: Tree<Node<T>>, t: Tree<Node<T>>, k: nat, cs: seq<Tree<Node<T>>>, u: seq<Iter<T>>, v: seq<Iter<T>>, node: Node<T>)
    requires Grown(root, t, k, cs, u, v)
    ensures 1 <= k + |u| < |Word(root)| && |u| <= |Words(cs)|
    ensures Grown(PlugTree(root, k + |u|, [Tree(node, [])]), t, k, PlugForest(cs, |u|, [Tree(node, [])]),
                  u + [Pos(node, true)], [Pos(node, false)] + v)
  {
    hide Word, PlugTree, PlugForest, Words;
    var leaf := Tree(node, []);
    NestedPlug(t, k, cs, |u|, leaf);
    PlugForestWord(cs, |u|, [leaf]);
    LeafWord(node);
    assert InsertAt(u + v, |u|, Words([leaf])) == (u + [Pos(node, true)]) + ([Pos(node, false)] + v);
  }

  /** pos = insert(pos, x); ++pos */
  method CopyOne<T(0)>(f: Forest<T>, pos: Iter<T>, x: T, ghost t: Tree<Node<T>>, ghost k: nat, ghost cs: seq<Tree<Node<T>>>,
                       ghost u: seq<Iter<T>>, ghost v: seq<Iter<T>>)
    returns (next: Iter<T>, ghost node: Node<T>)
    requires f.Valid() && Grown(f.root, t, k, cs, u, v) && k + |u| < |f.ring| && pos == f.ring[k + |u|]
    modifies f, f.Repr()`leadingNext, f.Repr()`leadingPrior, f.Repr()`trailingNext, f.Repr()`trailingPrior
    ensures f.Valid() && fresh(node) && node.data == x && next == Pos(node, false) && |u| <= |Words(cs)|
    ensures Grown(f.root, t, k, PlugForest(cs, |u|, [Tree(node, [])]), u + [Pos(node, true)], [Pos(node, false)] + v)
  {
    hide Word, Words, Ring, Distinct, Linked, Count, Find, PlugTree, PlugForest, Grown, InsertAt;
    ghost var root := f.root;
    GrownWord(root, t, k, cs, u, v);
    FindDistinct(f.ring, k + |u|);
    FindDistinct(f.ring, 0);
    f.RootFirst();
    var result := f.Insert(pos, x);
    node := result.node;
    GrownLeaf(root, t, k, cs, u, v, node);
    GrownWord(f.root, t, k, PlugForest(cs, |u|, [Tree(node, [])]), u + [Pos(node, true)], [Pos(node, false)] + v);
    assert f.ring[k + |u|] == Pos(node, true) && f.ring[k + |u| + 1] == Pos(node, false);
    IncrementSteps(f.root, k + |u|);
    next := Increment(result);
  }

  /** u copies the first |u| positions of w, and v closes the nodes they leave open. */
  ghost predicate Mirrors<N, V>(u: seq<Pos<N>>, v: seq<Pos<N>>, w: seq<Pos<N>>, copies: map<N, V>, m: map<N, V>) {
    && |u| <= |w| && |v| == Depth(w[..|u|])
    && (forall j :: 0 <= j < |u| ==> u[j].node in copies && w[j].node in m && MarkOf(u[j], copies) == MarkOf(w[j], m))
    && (forall j :: 0 <= j < |v| ==> !v[j].leading && v[j].node in copies)
  }

  lemma MirrorsOpen<N, V>(u: seq<Pos<N>>, v: seq<Pos<N>>, w: seq<Pos<N>>, copies: map<N, V>, m: map<N, V>, node: N)
    requires Mirrors(u, v, w, copies, m) && |u| < |w| && w[|u|].leading && node !in copies && w[|u|].node in m
    ensures Mirrors(u + [Pos(node, true)], [Pos(node, false)] + v, w, copies[node := m[w[|u|].node]], m)
  {
    hide Depth;
    assert w[..|u| + 1] == w[..|u|] + [w[|u|]];
    DepthConcat(w[..|u|], [w[|u|]]);
    DepthOne(w[|u|]);
  }

  lemma MirrorsClose<N, V>(u: seq<Pos<N>>, v: seq<Pos<N>>, ts: seq<Tree<N>>, copies: map<N, V>, m: map<N, V>)
    requires var w := Words(ts); Mirrors(u, v, w, copies, m) && |u| < |w| && !w[|u|].leading && w[|u|].node in m
    ensures v != [] && Mirrors(u + [v[0]], v[1..], Words(ts), copies, m)
  {
    hide Depth, Words;
    var w := Words(ts);
    PrefixDepth(ts, |u|);
    assert w[..|u| + 1] == w[..|u|] + [w[|u|]];
    DepthConcat(w[..|u|], [w[|u|]]);
    DepthOne(w[|u|]);
  }

  /** The map records the data of nodes. */
  ghost predicate Records<T(0)>(m: map<Node<T>, T>)
    reads m.Keys
  {
    forall n :: n in m ==> n.data == m[n]
  }

  /** A finished copy holds the values of the original in the same shape. */
  lemma MirrorsAll<T(0)>(cs: seq<Tree<Node<T>>>, gs: seq<Tree<Node<T>>>, u: seq<Iter<T>>, v: seq<Iter<T>>, copies: map<Node<T>, T>, m: map<Node<T>, T>)
    requires Mirrors(u, v, Words(gs), copies, m) && |u| == |Words(gs)| && Words(cs) == u + v && Records(copies) && Records(m)
    ensures v == [] && SameValues(cs, gs) && forall j :: 0 <= j < |Words(cs)| ==> Words(cs)[j].node in copies
  {
    hide Words, Depth, Valued, Marks;
    var w := Words(gs);
    PrefixDepth(gs, |w|);
    assert w[..|w|] == w && u + v == u;
    NodesCovered(cs);
    NodesCovered(gs);
    var a, b := Data(NodesOf(u)), Data(NodesOf(w));
    ValuedMarks(cs, a);
    ValuedMarks(gs, b);
    forall j | 0 <= j < |u| ensures MarkOf(u[j], a) == MarkOf(w[j], b) {
      assert u[j] in u && w[j] in w;
    }
    assert MarksOf(u, a) == MarksOf(w, b);
    SameMarks(Valued(cs, a), Valued(gs, b));
  }

  lemma NodesCovered<T(0)>(ts: seq<Tree<Node<T>>>)
    ensures Covers(Data(NodesOf(Words(ts))), Words(ts))
  {
  }

  /** The two lists of trees hold the same values in the same shape. */
  ghost predicate SameValues<T(0)>(cs: seq<Tree<Node<T>>>, gs: seq<Tree<Node<T>>>)
    reads NodesOf(Words(cs)), NodesOf(Words(gs))
  {
    NodesCovered(cs);
    NodesCovered(gs);
    Valued(cs, Data(NodesOf(Words(cs)))) == Valued(gs, Data(NodesOf(Words(gs))))
  }

  lemma GrownShift<T(0)>(root: Tree<Node<T>>, t: Tree<Node<T>>, k: nat, cs: seq<Tree<Node<T>>>, u: seq<Iter<T>>, v: seq<Iter<T>>)
    requires Grown(root, t, k, cs, u, v) && v != []
    ensures Grown(root, t, k, cs, u + [v[0]], v[1..])
  {
    hide Word, PlugTree, Words;
    assert (u + [v[0]]) + v[1..] == u + v;
  }

  lemma GrownStart<T(0)>(t: Tree<Node<T>>, k: nat)
    requires 1 <= k < |Word(t)|
    ensures Grown(t, t, k, [], [], [])
  {
    hide Word, PlugTree;
    PlugTreeWord(t, k, []);
    assert InsertAt(Word(t), k, []) == Word(t);
    WordDetermines(t, PlugTree(t, k, []));
  }

  lemma MirrorsStart<N, V>(w: seq<Pos<N>>, m: map<N, V>)
    ensures Mirrors([], [], w, map[], m)
  {
    assert w[..0] == [];
  }

  /** One round of the loop, except for ++first; copies are the nodes of the copy. */
  method CopyStep<T(0)>(f: Forest<T>, pos: Iter<T>, at: Iter<T>, ghost gs: seq<Tree<Node<T>>>, ghost m: map<Node<T>, T>, ghost t: Tree<Node<T>>, ghost k: nat,
                        ghost cs: seq<Tree<Node<T>>>, ghost u: seq<Iter<T>>, ghost v: seq<Iter<T>>, ghost copies: map<Node<T>, T>)
    returns (next: Iter<T>, ghost cs': seq<Tree<Node<T>>>, ghost u': seq<Iter<T>>, ghost v': seq<Iter<T>>, ghost copies': map<Node<T>, T>)
    requires f.Valid() && Records(m) && Records(copies) && at.node in m
    requires Grown(f.root, t, k, cs, u, v) && Mirrors(u, v, Words(gs), copies, m) && |u| < |Words(gs)| && at == Words(gs)[|u|]
    requires k + |u| < |f.ring| && pos == f.ring[k + |u|]
    modifies f, f.Repr()`leadingNext, f.Repr()`leadingPrior, f.Repr()`trailingNext, f.Repr()`trailingPrior
    ensures f.Valid() && Records(m) && Records(copies') && fresh(copies'.Keys - copies.Keys)
    ensures Grown(f.root, t, k, cs', u', v') && Mirrors(u', v', Words(gs), copies', m) && |u'| == |u| + 1
    ensures k + |u'| < |f.ring| && next == f.ring[k + |u'|]
  {
    hide Word, Words, Ring, Distinct, Linked, Count, Find, PlugTree, PlugForest, Grown, InsertAt, Depth, Mirrors;
    if at.leading {
      ghost var node;
      next, node := CopyOne(f, pos, at.node.data, t, k, cs, u, v);
      MirrorsOpen(u, v, Words(gs), copies, m, node);
      cs', copies' := PlugForest(cs, |u|, [Tree(node, [])]), copies[node := m[at.node]];
      u', v' := u + [Pos(node, true)], [Pos(node, false)] + v;
    } else {
      MirrorsClose(u, v, gs, copies, m);
      GrownWord(f.root, t, k, cs, u, v);
      IncrementSteps(f.root, k + |u|);
      next := Increment(pos);
      cs', u', v', copies' := cs, u + [v[0]], v[1..], copies;
      GrownShift(f.root, t, k, cs, u, v);
    }
    GrownWord(f.root, t, k, cs', u', v');
  }

  /** The ring holds the old nodes and the copies. */
  lemma GrownNodes<T(0)>(root: Tree<Node<T>>, t: Tree<Node<T>>, k: nat, cs: seq<Tree<Node<T>>>, u: seq<Iter<T>>, v: seq<Iter<T>>,
                         w: seq<Iter<T>>, copies: map<Node<T>, T>, m: map<Node<T>, T>)
    requires Grown(root, t, k, cs, u, v) && Mirrors(u, v, w, copies, m)
    ensures NodesOf(Word(root)) <= NodesOf(Word(t)) + copies.Keys
  {
    hide Word, Words, PlugTree, Depth;
    GrownWord(root, t, k, cs, u, v);
    var r := Word(root);
    forall i | 0 <= i < |r| ensures r[i].node in NodesOf(Word(t)) + copies.Keys {
      if i < k {
        assert r[i] == Word(t)[i];
      } else if i < k + |u| {
        assert r[i] == u[i - k];
      } else if i < k + |u| + |v| {
        assert r[i] == v[i - k - |u|];
      } else {
        assert r[i] == Word(t)[i - |u| - |v|];
      }
    }
  }

  lemma InRange<T(0)>(g: Forest<T>, i: nat, w: seq<Iter<T>>, j: nat)
    requires g.Valid() && i + |w| < |g.ring| && g.ring[i..i + |w|] == w && j <= |w|
    ensures g.ring[i + j] == g.ring[i + |w|] <==> j == |w|
    ensures j < |w| ==> g.ring[i + j] == w[j] && w[j].node in g.Repr()
  {
    hide Word, Ring, Distinct, Count;
    FindDistinct(g.ring, i + j);
    FindDistinct(g.ring, i + |w|);
    if j < |w| { assert g.ring[i..i + |w|][j] == g.ring[i + j]; }
  }

  lemma Advance<T(0)>(g: Forest<T>, j: nat)
    requires g.Valid() && j + 1 < |g.ring|
    ensures Increment(g.ring[j]) == g.ring[j + 1]
  {
    hide Word, Ring, Distinct, Count;
    IncrementSteps(g.root, j);
  }

  /** One round of the loop with a range of another forest. */
  method CopyFrom<T(0)>(f: Forest<T>, g: Forest<T>, pos: Iter<T>, at: Iter<T>, ghost i: nat, ghost gs: seq<Tree<Node<T>>>, ghost m: map<Node<T>, T>, ghost t: Tree<Node<T>>, ghost k: nat,
                        ghost cs: seq<Tree<Node<T>>>, ghost u: seq<Iter<T>>, ghost v: seq<Iter<T>>, ghost copies: map<Node<T>, T>)
    returns (next: Iter<T>, at': Iter<T>, ghost cs': seq<Tree<Node<T>>>, ghost u': seq<Iter<T>>, ghost v': seq<Iter<T>>, ghost copies': map<Node<T>, T>)
    requires f.Valid() && g.Valid() && f != g && f.Repr() !! g.Repr() && Records(m) && Records(copies) && g.Repr() <= m.Keys
    requires Grown(f.root, t, k, cs, u, v) && Mirrors(u, v, Words(gs), copies, m) && |u| < |Words(gs)|
    requires i + |Words(gs)| < |g.ring| && g.ring[i..i + |Words(gs)|] == Words(gs) && at == g.ring[i + |u|]
    requires k + |u| < |f.ring| && pos == f.ring[k + |u|]
    modifies f, f.Repr()`leadingNext, f.Repr()`leadingPrior, f.Repr()`trailingNext, f.Repr()`trailingPrior
    ensures f.Valid() && g.Valid() && Records(m) && Records(copies') && fresh(copies'.Keys - copies.Keys)
    ensures Grown(f.root, t, k, cs', u', v') && Mirrors(u', v', Words(gs), copies', m) && |u'| == |u| + 1
    ensures k + |u'| < |f.ring| && next == f.ring[k + |u'|] && at' == g.ring[i + |u'|]
  {
    hide Word, Words, Ring, Distinct, Linked, Count, Find, PlugTree, PlugForest, Grown, InsertAt, Depth, Mirrors;
    InRange(g, i, Words(gs), |u|);
    next, cs', u', v', copies' := CopyStep(f, pos, at, gs, m, t, k, cs, u, v, copies);
    Advance(g, i + |u|);
    at' := Increment(at);
  }

  /**
   * insert(position, first, last): a copy cs of the siblings gs stands in front of position, in
   * new nodes; nothing else has moved.
   */
  method InsertRange<T(0)>(f: Forest<T>, position: Iter<T>, g: Forest<T>, first: Iter<T>, last: Iter<T>, ghost i: nat, ghost gs: seq<Tree<Node<T>>>)
    returns (pos: Iter<T>, ghost cs: seq<Tree<Node<T>>>)
    requires f.Valid() && g.Valid() && f != g && f.Repr() !! g.Repr() && position in f.ring && position != f.Root()
    requires 0 < i && i + |Words(gs)| < |g.ring| && g.ring[i..i + |Words(gs)|] == Words(gs)
    requires first == g.ring[i] && last == g.ring[i + |Words(gs)|]
    modifies f, f.Repr()`leadingNext, f.Repr()`leadingPrior, f.Repr()`trailingNext, f.Repr()`trailingPrior
    ensures f.Valid() && g.Valid() && pos == position && 1 <= old(Find(f.ring, position))
    ensures f.root == PlugTree(old(f.root), old(Find(f.ring, position)), cs)
    ensures SameValues(cs, gs) && forall j :: 0 <= j < |Words(cs)| ==> fresh(Words(cs)[j].node)
  {
    hide Word, Words, Ring, Distinct, Linked, Count, Find, PlugTree, PlugForest, Grown, InsertAt, Depth, SameValues, Mirrors;
    ghost var t, k, w, m := f.root, Find(f.ring, position), Words(gs), Data(g.Repr());
    ghost var u: seq<Iter<T>>, v: seq<Iter<T>>, copies: map<Node<T>, T> := [], [], map[];
    pos, cs := position, [];
    f.RootFirst();
    GrownStart(t, k);
    MirrorsStart(w, m);
    var at := first;
    while at != last
      invariant f.Valid() && Records(m) && Records(copies) && fresh(copies.Keys)
      invariant Grown(f.root, t, k, cs, u, v) && Mirrors(u, v, w, copies, m)
      invariant |u| <= |w| && k + |u| < |f.ring| && pos == f.ring[k + |u|] && at == g.ring[i + |u|]
      invariant g.Valid()
      decreases |w| - |u|
    {
      GrownNodes(f.root, t, k, cs, u, v, w, copies, m);
      pos, at, cs, u, v, copies := CopyFrom(f, g, pos, at, i, gs, m, t, k, cs, u, v, copies);
    }
    InRange(g, i, w, |u|);
    GrownWord(f.root, t, k, cs, u, v);
    MirrorsAll(cs, gs, u, v, copies, m);
  }

  // ---- a copy within one forest --------------------------------------------------------------

  /** Where position j of the old ring stands once n positions have come in front of position k. */
  function Shifted(j: nat, k: nat, n: nat): nat { if j < k then j else j + n }

  /** Neighbours that the copies do not come between stay neighbours. */
  lemma StillNext<T(0)>(f: Forest<T>, t: Tree<Node<T>>, k: nat, cs: seq<Tree<Node<T>>>, u: seq<Iter<T>>, v: seq<Iter<T>>, j: nat)
    requires f.Valid() && Grown(f.root, t, k, cs, u, v) && j + 1 < |Word(t)| && j + 1 != k
    ensures Increment(Word(t)[j]) == Word(t)[j + 1]
  {
    hide Word, Words, Ring, Distinct, Count, PlugTree;
    GrownWord(f.root, t, k, cs, u, v);
    var w, n := Word(t), |u| + |v|;
    assert f.ring[Shifted(j, k, n)] == w[j] && f.ring[Shifted(j, k, n) + 1] == w[j + 1];
    Advance(f, Shifted(j, k, n));
  }

  /** One round of the loop with a range of the same forest, whose ring was Word(t). */
  method CopyOn<T(0)>(f: Forest<T>, pos: Iter<T>, at: Iter<T>, ghost i: nat, ghost gs: seq<Tree<Node<T>>>, ghost m: map<Node<T>, T>, ghost t: Tree<Node<T>>, ghost k: nat,
                      ghost cs: seq<Tree<Node<T>>>, ghost u: seq<Iter<T>>, ghost v: seq<Iter<T>>, ghost copies: map<Node<T>, T>)
    returns (next: Iter<T>, at': Iter<T>, ghost cs': seq<Tree<Node<T>>>, ghost u': seq<Iter<T>>, ghost v': seq<Iter<T>>, ghost copies': map<Node<T>, T>)
    requires f.Valid() && Records(m) && Records(copies) && NodesOf(Word(t)) <= m.Keys
    requires Grown(f.root, t, k, cs, u, v) && Mirrors(u, v, Words(gs), copies, m) && |u| < |Words(gs)|
    requires i + |Words(gs)| < |Word(t)| && Word(t)[i..i + |Words(gs)|] == Words(gs) && at == Word(t)[i + |u|]
    requires k <= i || i + |Words(gs)| < k
    requires k + |u| < |f.ring| && pos == f.ring[k + |u|]
    modifies f, f.Repr()`leadingNext, f.Repr()`leadingPrior, f.Repr()`trailingNext, f.Repr()`trailingPrior
    ensures f.Valid() && Records(m) && Records(copies') && fresh(copies'.Keys - copies.Keys)
    ensures Grown(f.root, t, k, cs', u', v') && Mirrors(u', v', Words(gs), copies', m) && |u'| == |u| + 1
    ensures k + |u'| < |f.ring| && next == f.ring[k + |u'|] && at' == Word(t)[i + |u'|]
  {
    hide Word, Words, Ring, Distinct, Linked, Count, Find, PlugTree, PlugForest, Grown, InsertAt, Depth, Mirrors;
    assert Word(t)[i..i + |Words(gs)|][|u|] == at;
    assert at in Word(t);
    next, cs', u', v', copies' := CopyStep(f, pos, at, gs, m, t, k, cs, u, v, copies);
    StillNext(f, t, k, cs', u', v', i + |u|);
    at' := Increment(at);
  }

  /** insert(position, first, last) with a range of the same forest and a position outside it. */
  method InsertRangeWithin<T(0)>(f: Forest<T>, position: Iter<T>, first: Iter<T>, last: Iter<T>, ghost i: nat, ghost gs: seq<Tree<Node<T>>>)
    returns (pos: Iter<T>, ghost cs: seq<Tree<Node<T>>>)
    requires f.Valid() && position in f.ring && position != f.Root()
    requires 0 < i && i + |Words(gs)| < |f.ring| && f.ring[i..i + |Words(gs)|] == Words(gs)
    requires first == f.ring[i] && last == f.ring[i + |Words(gs)|]
    requires Find(f.ring, position) <= i || i + |Words(gs)| < Find(f.ring, position)
    modifies f, f.Repr()`leadingNext, f.Repr()`leadingPrior, f.Repr()`trailingNext, f.Repr()`trailingPrior
    ensures f.Valid() && pos == position && 1 <= old(Find(f.ring, position))
    ensures f.root == PlugTree(old(f.root), old(Find(f.ring, position)), cs)
    ensures SameValues(cs, gs) && forall j :: 0 <= j < |Words(cs)| ==> fresh(Words(cs)[j].node)
  {
    hide Word, Words, Ring, Distinct, Linked, Count, Find, PlugTree, PlugForest, Grown, InsertAt, Depth, SameValues, Mirrors;
    ghost var t, k, w, m := f.root, Find(f.ring, position), Words(gs), Data(f.Repr());
    ghost var u: seq<Iter<T>>, v: seq<Iter<T>>, copies: map<Node<T>, T> := [], [], map[];
    pos, cs := position, [];
    f.RootFirst();
    GrownStart(t, k);
    MirrorsStart(w, m);
    var at := first;
    while at != last
      invariant f.Valid() && Records(m) && Records(copies) && fresh(copies.Keys)
      invariant Grown(f.root, t, k, cs, u, v) && Mirrors(u, v, w, copies, m)
      invariant |u| <= |w| && k + |u| < |f.ring| && pos == f.ring[k + |u|] && at == Word(t)[i + |u|]
      decreases |w| - |u|
    {
      GrownNodes(f.root, t, k, cs, u, v, w, copies, m);
      pos, at, cs, u, v, copies := CopyOn(f, pos, at, i, gs, m, t, k, cs, u, v, copies);
    }
    InOldRange(t, i, w, |u|);
    GrownWord(f.root, t, k, cs, u, v);
    MirrorsAll(cs, gs, u, v, copies, m);
  }

  lemma InOldRange<T(0)>(t: Tree<Node<T>>, i: nat, w: seq<Iter<T>>, j: nat)
    requires Distinct(Word(t)) && i + |w| < |Word(t)| && Word(t)[i..i + |w|] == w && j <= |w|
    ensures Word(t)[i + j] == Word(t)[i + |w|] <==> j == |w|
    ensures j < |w| ==> Word(t)[i + j] == w[j] && w[j].node in NodesOf(Word(t))
  {
    hide Word, Distinct;
    FindDistinct(Word(t), i + j);
    FindDistinct(Word(t), i + |w|);
    if j < |w| { assert Word(t)[i..i + |w|][j] == Word(t)[i + j]; }
  }

  // ---- a position inside the range, or at its end --------------------------------------------

  /**
   * The siblings gs, the copies among them, begin at position i; at is n rounds on from there, and
   * the position for the next copy is always d ahead of it, but never past the end of the range.
   */
  ghost predicate Chased<T(0)>(ring: seq<Iter<T>>, i: nat, gs: seq<Tree<Node<T>>>, n: nat, d: nat, slack: nat) {
    && 0 < i && 0 < d && i + |Words(gs)| < |ring| && ring[i..i + |Words(gs)|] == Words(gs)
    && n + d <= |Words(gs)| && |Words(gs)| - (n + d) == slack + Depth(Words(gs)[..n])
  }

  /** Where the iterators of the loop stand. */
  ghost predicate Chasing<T(0)>(ring: seq<Iter<T>>, i: nat, gs: seq<Tree<Node<T>>>, n: nat, d: nat, slack: nat, pos: Iter<T>, at: Iter<T>, last: Iter<T>) {
    && Chased(ring, i, gs, n, d, slack)
    && at == ring[i + n] && pos == ring[i + n + d] && last == ring[i + |Words(gs)|]
  }

  lemma DepthSnoc<N>(w: seq<Pos<N>>, n: nat)
    requires n < |w|
    ensures Depth(w[..n + 1]) == Depth(w[..n]) + (if w[n].leading then 1 else -1)
  {
    hide Depth;
    assert w[..n + 1] == w[..n] + [w[n]];
    DepthConcat(w[..n], [w[n]]);
    DepthOne(w[n]);
  }

  /** A leaf that comes into the range: one sibling forest more, and what is behind at stays. */
  lemma ChasedLeaf<T(0)>(ring: seq<Iter<T>>, i: nat, gs: seq<Tree<Node<T>>>, n: nat, d: nat, slack: nat, node: Node<T>) returns (hs: seq<Tree<Node<T>>>)
    requires Chased(ring, i, gs, n, d, slack) && ring[i + n].leading
    ensures var grown := InsertAt(ring, i + n + d, [Pos(node, true), Pos(node, false)]);
      && Chased(grown, i, hs, n + 1, d, slack) && |Words(hs)| == |Words(gs)| + 2
      && grown[i + |Words(hs)|] == ring[i + |Words(gs)|] && Depth(Words(hs)[..n + 1]) == Depth(Words(gs)[..n]) + 1
  {
    hide Words, Word, Depth, PlugForest;
    var w, k, leaf := Words(gs), n + d, [Pos(node, true), Pos(node, false)];
    hs := PlugForest(gs, k, [Tree(node, [])]);
    PlugForestWord(gs, k, [Tree(node, [])]);
    LeafWord(node);
    var x, grown := InsertAt(w, k, leaf), InsertAt(ring, i + k, leaf);
    assert Words(hs) == x;
    assert forall j :: 0 <= j < |w| ==> w[j] == ring[i + j];
    assert grown[i..i + |x|] == x;
    assert x[..n] == w[..n] && x[n] == w[n];
    DepthSnoc(x, n);
  }

  lemma ChasedOn<T(0)>(ring: seq<Iter<T>>, i: nat, gs: seq<Tree<Node<T>>>, n: nat, d: nat, slack: nat)
    requires Chased(ring, i, gs, n, d, slack) && !ring[i + n].leading
    ensures Chased(ring, i, gs, n + 1, d, slack) && Depth(Words(gs)[..n + 1]) == Depth(Words(gs)[..n]) - 1
  {
    hide Words, Depth;
    assert ring[i..i + |Words(gs)|][n] == ring[i + n];
    DepthSnoc(Words(gs), n);
    PrefixDepth(gs, n + 1);
  }

  lemma ChasingLeaf<T(0)>(ring: seq<Iter<T>>, i: nat, gs: seq<Tree<Node<T>>>, n: nat, d: nat, slack: nat, pos: Iter<T>, at: Iter<T>, last: Iter<T>, node: Node<T>)
    returns (hs: seq<Tree<Node<T>>>)
    requires Chasing(ring, i, gs, n, d, slack, pos, at, last) && at.leading
    ensures n <= |Words(gs)| && n < |Words(hs)| && Depth(Words(hs)[..n + 1]) == Depth(Words(gs)[..n]) + 1
    ensures var grown := InsertAt(ring, i + n + d, [Pos(node, true), Pos(node, false)]);
      i + n + 1 < |grown| && grown[i + n] == at && Chasing(grown, i, hs, n + 1, d, slack, Pos(node, false), grown[i + n + 1], last)
  {
    hide Words, Depth;
    hs := ChasedLeaf(ring, i, gs, n, d, slack, node);
  }

  /** The node put in front of the position: pos = insert(pos, *first); ++pos */
  method ChaseLeaf<T(0)>(f: Forest<T>, pos: Iter<T>, at: Iter<T>, ghost k: nat) returns (next: Iter<T>, ghost node: Node<T>)
    requires f.Valid() && 0 < k < |f.ring| && pos == f.ring[k]
    modifies f, f.Repr()`leadingNext, f.Repr()`leadingPrior, f.Repr()`trailingNext, f.Repr()`trailingPrior
    ensures f.Valid() && fresh(f.Repr() - old(f.Repr())) && next == Pos(node, false)
    ensures f.ring == InsertAt(old(f.ring), k, [Pos(node, true), Pos(node, false)])
  {
    hide Word, Words, Ring, Distinct, Linked, Count, Find, PlugTree, PlugForest, Grown;
    ghost var t := f.root;
    GrownStart(t, k);
    next, node := CopyOne(f, pos, at.node.data, t, k, [], [], []);
    GrownWord(f.root, t, k, PlugForest([], 0, [Tree(node, [])]), [] + [Pos(node, true)], [Pos(node, false)] + []);
    assert f.ring == InsertAt(Word(t), k, [Pos(node, true), Pos(node, false)]);
    InsertedRun(Word(t), k, [Pos(node, true), Pos(node, false)]);
  }

  /** One round of the loop. */
  method ChaseStep<T(0)>(f: Forest<T>, pos: Iter<T>, at: Iter<T>, ghost last: Iter<T>, ghost i: nat, ghost gs: seq<Tree<Node<T>>>, ghost n: nat, ghost d: nat, ghost slack: nat)
    returns (pos': Iter<T>, at': Iter<T>, ghost gs': seq<Tree<Node<T>>>)
    requires f.Valid() && Chasing(f.ring, i, gs, n, d, slack, pos, at, last)
    modifies f, f.Repr()`leadingNext, f.Repr()`leadingPrior, f.Repr()`trailingNext, f.Repr()`trailingPrior
    ensures f.Valid() && Chasing(f.ring, i, gs', n + 1, d, slack, pos', at', last) && fresh(f.Repr() - old(f.Repr()))
    ensures n <= |Words(gs)| && n < |Words(gs')| && |f.ring| - Depth(Words(gs')[..n + 1]) == |old(f.ring)| - Depth(Words(gs)[..n]) + 1
  {
    hide Word, Words, Ring, Distinct, Linked, Count, Depth;
    ghost var ring, q := f.ring, i + n + d;
    if at.leading {
      ghost var node;
      pos', node := ChaseLeaf(f, pos, at, q);
      gs' := ChasingLeaf(ring, i, gs, n, d, slack, pos, at, last, node);
    } else {
      ChasedOn(f.ring, i, gs, n, d, slack);
      Advance(f, q);
      pos' := Increment(pos);
      gs' := gs;
    }
    Advance(f, i + n);
    at' := Increment(at);
  }

  /** at is never at the end of the range. */
  lemma NeverThere<T(0)>(f: Forest<T>, i: nat, gs: seq<Tree<Node<T>>>, n: nat, d: nat, slack: nat, pos: Iter<T>, at: Iter<T>, last: Iter<T>)
    requires f.Valid() && Chasing(f.ring, i, gs, n, d, slack, pos, at, last)
    ensures at != last && n <= |Words(gs)| && Depth(Words(gs)[..n]) >= 0
  {
    hide Word, Words, Ring, Distinct, Count, Depth, Find;
    FindDistinct(f.ring, i + n);
    FindDistinct(f.ring, i + |Words(gs)|);
    PrefixDepth(gs, n);
  }

  lemma ChasingStart<T(0)>(ring: seq<Iter<T>>, i: nat, gs: seq<Tree<Node<T>>>, position: Iter<T>)
    requires position in ring && 0 < i && i + |Words(gs)| < |ring| && ring[i..i + |Words(gs)|] == Words(gs)
    requires i < Find(ring, position) <= i + |Words(gs)|
    ensures var d := Find(ring, position) - i;
      Chasing(ring, i, gs, 0, d, |Words(gs)| - d, position, ring[i], ring[i + |Words(gs)|]) && Depth(Words(gs)[..0]) == 0
  {
    hide Words;
    assert Words(gs)[..0] == [];
  }

  /**
   * insert(position, first, last) with a range of the same forest and a position inside it or at
   * its end, stopped after at most n rounds: the loop has not ended, however large n is, and the
   * forest has grown by at least one position in each round.
   */
  method InsertRangeEndless<T(0)>(f: Forest<T>, position: Iter<T>, first: Iter<T>, last: Iter<T>, n: nat, ghost i: nat, ghost gs: seq<Tree<Node<T>>>)
    returns (rounds: nat, at: Iter<T>)
    requires f.Valid() && position in f.ring
    requires 0 < i && i + |Words(gs)| < |f.ring| && f.ring[i..i + |Words(gs)|] == Words(gs)
    requires first == f.ring[i] && last == f.ring[i + |Words(gs)|]
    requires i < Find(f.ring, position) <= i + |Words(gs)|
    modifies f, f.Repr()`leadingNext, f.Repr()`leadingPrior, f.Repr()`trailingNext, f.Repr()`trailingPrior
    ensures f.Valid() && rounds == n && at != last && |f.ring| >= |old(f.ring)| + n
  {
    hide Word, Words, Ring, Distinct, Linked, Count, Find, Depth, Chasing;
    ghost var hs, d := gs, Find(f.ring, position) - i;
    ghost var slack := |Words(gs)| - d;
    ChasingStart(f.ring, i, gs, position);
    var pos := position;
    at, rounds := first, 0;
    while at != last && rounds < n
      invariant rounds <= n && f.Valid() && Chasing(f.ring, i, hs, rounds, d, slack, pos, at, last) && fresh(f.Repr() - old(f.Repr()))
      invariant rounds <= |Words(hs)| && |f.ring| == |old(f.ring)| + rounds + Depth(Words(hs)[..rounds])
    {
      pos, at, hs := ChaseStep(f, pos, at, last, i, hs, rounds, d, slack);
      rounds := rounds + 1;
    }
    NeverThere(f, i, hs, rounds, d, slack, pos, at, last);
  }

  /** The trees of a forest of one leaf appended to themselves. */
  method AppendToItself<T(0)>(x: T, n: nat) returns (f: Forest<T>, rounds: nat, at: Iter<T>)
    ensures f.Valid() && rounds == n && at != f.End() && |f.ring| >= 4 + n
  {
    hide Ring, Distinct, Linked, Count, Find;
    f := new Forest<T>();
    f.RootFirst();
    EmptyRing(f);
    FindDistinct(f.ring, 1);
    var first := f.Insert(f.End(), x);
    OnlyTrees(f.tail, [Tree(first.node, [])]);
    ghost var gs := [Tree(first.node, [])];
    LeafWord(first.node);
    assert f.ring == [f.Root(), first, first.Pivot(), f.End()];
    FindDistinct(f.ring, 3);
    assert f.ring[1..3] == Words(gs);
    rounds, at := InsertRangeEndless(f, f.End(), first, f.End(), n, 1, gs);
  }

  // ---- the copy of a whole forest ------------------------------------------------------------

  /** The values of a forest depend on the data of its own nodes only. */
  lemma {:induction false} ValuedAgree<N, V>(ts: seq<Tree<N>>, m: map<N, V>, n: map<N, V>)
    requires Covers(m, Words(ts)) && Covers(n, Words(ts)) && forall x :: x in m && x in n ==> m[x] == n[x]
    ensures Valued(ts, m) == Valued(ts, n)
  {
    ValuedMarks(ts, m);
    ValuedMarks(ts, n);
    assert MarksOf(Words(ts), m) == MarksOf(Words(ts), n);
    SameMarks(Valued(ts, m), Valued(ts, n));
  }

  lemma ContentsOf<T(0)>(f: Forest<T>)
    requires f.Valid()
    ensures Covers(Data(NodesOf(Words(f.root.children))), Words(f.root.children))
    ensures Contents(f) == Valued(f.root.children, Data(NodesOf(Words(f.root.children))))
  {
    hide Ring, Distinct, Word, Words, Valued;
    BelowRoot(f);
    NodesCovered(f.root.children);
    ValuedAgree(f.root.children, Data(f.Repr()), Data(NodesOf(Words(f.root.children))));
  }

  /** The copy constructor: a new forest that holds what the old one holds. */
  method CopyForest<T(0)>(g: Forest<T>) returns (f: Forest<T>)
    requires g.Valid()
    ensures fresh(f) && f.Valid() && g.Valid() && Contents(f) == Contents(g)
  {
    hide Word, Words, Ring, Distinct, Linked, Count, Find, PlugTree, Contents, SameValues;
    ghost var gs := g.root.children;
    BelowRoot(g);
    g.RootFirst();
    f := new Forest<T>();
    assert forall o: object :: o in NodesOf(g.ring) ==> o is Node<T>;
    f.RootFirst();
    EmptyRing(f);
    IncrementSteps(g.root, 0);
    assert g.ring[1..1 + |Words(gs)|] == Words(gs);
    FindDistinct(f.ring, 1);
    var pos;
    ghost var cs;
    pos, cs := InsertRange(f, f.End(), g, Increment(g.Root()), g.End(), 1, gs);
    OnlyTrees(f.tail, cs);
    ContentsOf(f);
    ContentsOf(g);
    SameContents(cs, gs);
  }

  lemma EmptyRing<T(0)>(f: Forest<T>)
    requires f.Valid() && f.root == Tree(f.tail, [])
    ensures f.ring == [f.Root(), f.End()]
  {
    assert Words<Node<T>>([]) == [];
  }

  lemma OnlyTrees<N>(n: N, cs: seq<Tree<N>>)
    ensures |Word(Tree(n, []))| == 2 && PlugTree(Tree(n, []), 1, cs) == Tree(n, cs)
  {
    assert cs + [] == cs;
  }

  lemma SameContents<T(0)>(cs: seq<Tree<Node<T>>>, gs: seq<Tree<Node<T>>>)
    requires SameValues(cs, gs)
    ensures Covers(Data(NodesOf(Words(cs))), Words(cs)) && Covers(Data(NodesOf(Words(gs))), Words(gs))
    ensures Valued(cs, Data(NodesOf(Words(cs)))) == Valued(gs, Data(NodesOf(Words(gs))))
  {
    hide Words, Valued;
    NodesCovered(cs);
    NodesCovered(gs);
  }

  /** operator== between a forest and its copy. */
  method CopyIsEqual<T(0, ==)>(g: Forest<T>) returns (f: Forest<T>, equal: bool)
    requires g.Valid()
    modifies g`size
    ensures equal && f.Valid() && g.Valid()
  {
    hide Word, Words, Ring, Distinct, Linked, Count, Contents;
    f := CopyForest(g);
    equal := Equal(f, g);
  }
}
