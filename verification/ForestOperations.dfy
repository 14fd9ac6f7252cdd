/**
 * The operations of adobe::forest that are built from insert, erase and splice.
 */
module ForestOperations {
  import opened RoseForest
  import opened ForestLinks
  import opened Forests

  /** insert_parent(first, last, x): the siblings fs in [first, last) become the children of a new node. */
  method InsertParent<T(0)>(f: Forest<T>, first: Iter<T>, last: Iter<T>, x: T,
                            ghost c: Tree<Node<T>>, ghost i: nat, ghost fs: seq<Tree<Node<T>>>) returns (result: Iter<T>)
    requires f.Valid()
    requires 0 < i < |Word(c)| && f.root == PlugTree(c, i, fs)
    requires i + |Words(fs)| < |f.ring| && first == f.ring[i] && last == f.ring[i + |Words(fs)|]
    modifies f, f.Repr()`leadingNext, f.Repr()`leadingPrior, f.Repr()`trailingNext, f.Repr()`trailingPrior
    ensures f.Valid() && fresh(result.node) && result.leading && result.node.data == x
    ensures f.root == PlugTree(c, i, [Tree(result.node, fs)])
  {
    hide Word, Ring, Distinct, Linked, Count, Find, PlugTree, InsertAt, Words;
    f.RootFirst();
    ghost var w, j := f.ring, i + |Words(fs)|;
    FindDistinct(w, 0);
    FindDistinct(w, j);
    result := f.Insert(last, x);
    assert forall k :: 0 <= k < |w| ==> w[k].node != result.node;
    WrapSiblings(c, i, fs, result.node);
    WrapReady(c, i, fs, result.node, w);
    if first != last {
      Adopt(f, result, first, c, i, fs);
    }
  }

  /** The splice of insert_parent: the siblings in front of the leaf become its children. */
  method Adopt<T(0)>(f: Forest<T>, leaf: Iter<T>, first: Iter<T>, ghost c: Tree<Node<T>>, ghost i: nat, ghost fs: seq<Tree<Node<T>>>)
    requires f.Valid() && leaf.leading && leaf.node != f.tail
    requires 0 < i < |Word(c)| && fs != [] && |Word(PlugTree(c, i, [Tree(leaf.node, [])]))| == |Word(c)| + 2
    requires f.root == PlugTree(PlugTree(c, i, [Tree(leaf.node, [])]), i, fs)
    requires i + |Words(fs)| < |f.ring| && first == f.ring[i] && leaf == f.ring[i + |Words(fs)|]
    modifies f`root, f`ring
    modifies f.Repr()`leadingNext, f.Repr()`leadingPrior, f.Repr()`trailingNext, f.Repr()`trailingPrior
    ensures f.Valid() && f.root == PlugTree(c, i, [Tree(leaf.node, fs)])
  {
    hide Word, Ring, Distinct, Linked, Count, Find, PlugTree, InsertAt, Words;
    ghost var mid := PlugTree(c, i, [Tree(leaf.node, [])]);
    WrapSiblings(c, i, fs, leaf.node);
    PlugFacts(mid, i, fs);
    DistinctInserted(Word(mid), i, Words(fs));
    FindDistinct(Word(mid), i + 1);
    InsertedRun(Word(mid), i, Words(fs));
    assert first in Words(fs) && TrailingOf(leaf) in Word(mid);
    var moved := f.SpliceWithin(TrailingOf(leaf), first, leaf, mid, i, fs);
  }

  /** The ring once the new parent stands behind the siblings, as a leaf. */
  lemma WrapReady<T(0)>(c: Tree<Node<T>>, i: nat, fs: seq<Tree<Node<T>>>, n: Node<T>, w: seq<Iter<T>>)
    requires 0 < i < |Word(c)| && w == Word(PlugTree(c, i, fs)) && Distinct(w)
    requires forall p :: p in w ==> p.node != n
    ensures i + |Words(fs)| < |w| && (fs == [] <==> w[i] == w[i + |Words(fs)|])
    ensures |Word(PlugTree(c, i, [Tree(n, [])]))| == |Word(c)| + 2
    ensures var mid := PlugTree(c, i, [Tree(n, [])]);
      var r := Word(PlugTree(mid, i, fs));
      && |r| == |w| + 2 && r[i] == (if fs == [] then Pos(n, true) else w[i]) && r[i + |Words(fs)|] == Pos(n, true)
      && NodesOf(r) == NodesOf(w) + {n} && (fs == [] ==> PlugTree(mid, i, fs) == mid)
  {
    hide Word, Distinct, Count, Find, PlugTree, InsertAt, Words, NodesOf;
    var mid := PlugTree(c, i, [Tree(n, [])]);
    LeafWord(n);
    WrapSiblings(c, i, fs, n);
    PlugFacts(c, i, fs);
    InsertedRun(Word(c), i, Words(fs));
    PlugFacts(mid, i, fs);
    InsertedRun(Word(mid), i, Words(fs));
    PlugLeaf(PlugTree(c, i, fs), i + |Words(fs)|, n);
    InsertedRun(w, i + |Words(fs)|, Words([Tree(n, [])]));
    LeafNodes(n);
  }

  lemma LeafNodes<T(0)>(n: Node<T>)
    ensures NodesOf([Pos(n, true), Pos(n, false)]) == {n}
  {
  }

  /** Inserting a leaf behind the siblings and moving them into it wraps them. */
  lemma WrapSiblings<N>(c: Tree<N>, i: nat, fs: seq<Tree<N>>, n: N)
    requires 0 < i < |Word(c)|
    ensures var mid := PlugTree(c, i, [Tree(n, [])]);
      && |Word(mid)| == |Word(c)| + 2 && Word(mid)[i] == Pos(n, true) && Word(mid)[i + 1] == Pos(n, false)
      && |Word(PlugTree(c, i, fs))| == |Word(c)| + |Words(fs)|
      && PlugTree(PlugTree(c, i, fs), i + |Words(fs)|, [Tree(n, [])]) == PlugTree(mid, i, fs)
      && PlugTree(mid, i + 1, fs) == PlugTree(c, i, [Tree(n, fs)])
  {
    hide PlugTree, Words, Word, InsertAt;
    var leaf, mid, w, m := [Tree(n, [])], PlugTree(c, i, [Tree(n, [])]), Word(c), Words(fs);
    LeafWord(n);
    WrappedWord(n, fs);
    InsertSwap(w, i, m, Words(leaf));
    InsertInside(w, i, Pos(n, true), Pos(n, false), m);
    PlugFacts(c, i, leaf);
    PlugFacts(c, i, fs);
    PlugFacts(mid, i, fs);
    PlugFacts(mid, i + 1, fs);
    PlugFacts(c, i, [Tree(n, fs)]);
    PlugFacts(PlugTree(c, i, fs), i + |m|, leaf);
    WordDetermines(PlugTree(mid, i + 1, fs), PlugTree(c, i, [Tree(n, fs)]));
    WordDetermines(PlugTree(PlugTree(c, i, fs), i + |m|, leaf), PlugTree(mid, i, fs));
  }

  lemma WrappedWord<N>(n: N, fs: seq<Tree<N>>)
    ensures Words([Tree(n, fs)]) == [Pos(n, true)] + Words(fs) + [Pos(n, false)]
  {
    WordsSingle(Tree(n, fs));
  }

  lemma InsertSwap<A>(w: seq<A>, i: nat, m: seq<A>, l: seq<A>)
    requires i <= |w|
    ensures |InsertAt(w, i, m)| == |w| + |m| && |InsertAt(w, i, l)| == |w| + |l|
    ensures InsertAt(InsertAt(w, i, m), i + |m|, l) == InsertAt(InsertAt(w, i, l), i, m)
  {
    var wm, wl := InsertAt(w, i, m), InsertAt(w, i, l);
    assert wm[..i + |m|] == w[..i] + m && wm[i + |m|..] == w[i..];
    assert wl[..i] == w[..i] && wl[i..] == l + w[i..];
  }

  lemma InsertInside<A>(w: seq<A>, i: nat, x: A, y: A, m: seq<A>)
    requires i < |w|
    ensures |InsertAt(w, i, [x, y])| == |w| + 2
    ensures InsertAt(w, i, [x, y])[i] == x && InsertAt(w, i, [x, y])[i + 1] == y
    ensures InsertAt(InsertAt(w, i, [x, y]), i + 1, m) == InsertAt(w, i, [x] + m + [y])
  {
    var r := InsertAt(w, i, [x, y]);
    assert r[..i + 1] == w[..i] + [x] && r[i + 1..] == [y] + w[i..];
  }

  // ---- erase(first, last) ---------------------------------------------------------------

  /** The positions of s, in order, whose other edge is not in w. */
  ghost function Keep<N>(s: seq<Pos<N>>, w: seq<Pos<N>>): seq<Pos<N>> {
    if s == [] then []
    else Keep(s[..|s| - 1], w) + (if s[|s| - 1].Pivot() in w then [] else [s[|s| - 1]])
  }

  lemma {:induction false} KeepMembers<N>(s: seq<Pos<N>>, w: seq<Pos<N>>, p: Pos<N>)
    ensures p in Keep(s, w) <==> p in s && p.Pivot() !in w
  {
    if s != [] {
      KeepMembers(s[..|s| - 1], w, p);
      assert s == s[..|s| - 1] + [s[|s| - 1]];
    }
  }

  /** A position whose other edge is not in s changes nothing but itself. */
  lemma {:induction false} KeepMore<N>(s: seq<Pos<N>>, w: seq<Pos<N>>, p: Pos<N>)
    requires p.Pivot() !in s
    ensures Keep(s, w + [p]) == Keep(s, w)
  {
    if s != [] {
      assert s == s[..|s| - 1] + [s[|s| - 1]];
      KeepMore(s[..|s| - 1], w, p);
      assert s[|s| - 1].Pivot().Pivot() == s[|s| - 1];
    }
  }

  /** One more position p that is kept. */
  lemma KeepExtends<N>(s: seq<Pos<N>>, p: Pos<N>)
    requires p.Pivot() !in s
    ensures Keep(s + [p], s + [p]) == Keep(s, s) + [p]
  {
    assert (s + [p])[..|s|] == s;
    KeepMore(s, s, p);
  }

  /** One more position whose other edge is the last kept so far: both go. */
  lemma KeepCloses<N>(s: seq<Pos<N>>, p: Pos<N>)
    requires Distinct(s) && Keep(s, s) != [] && Keep(s, s)[|Keep(s, s)| - 1] == p.Pivot()
    ensures Keep(s + [p], s + [p]) == Keep(s, s)[..|Keep(s, s)| - 1]
  {
    assert (s + [p])[..|s|] == s;
    KeepMembers(s, s, p.Pivot());
    KeepDrops(s, s, p);
  }

  lemma {:induction false} KeepDrops<N>(s: seq<Pos<N>>, w: seq<Pos<N>>, p: Pos<N>)
    requires Distinct(s) && Keep(s, w) != [] && Keep(s, w)[|Keep(s, w)| - 1] == p.Pivot()
    ensures Keep(s, w + [p]) == Keep(s, w)[..|Keep(s, w)| - 1]
  {
    var last, rest := s[|s| - 1], s[..|s| - 1];
    assert s == rest + [last];
    DistinctByIndex(s);
    DistinctByIndex(rest);
    if last.Pivot() in w {
      KeepDrops(rest, w, p);
    } else {
      assert last == p.Pivot();
      KeepMore(rest, w, p);
      assert p.Pivot() !in rest;
    }
  }

  /**
   * erase has swept w from index i up to cur: what is left of that stretch are the edges
   * whose partner lies outside it, trailing ones first, then depth leading ones.
   */
  ghost predicate Swept<N>(w: seq<Pos<N>>, i: nat, cur: nat, depth: nat, ring: seq<Pos<N>>) {
    && i <= cur < |w|
    && var u := Keep(w[i..cur], w[i..cur]);
    && ring == w[..i] + u + w[cur..]
    && depth <= |u|
    && (forall k :: 0 <= k < |u| ==> (u[k].leading <==> k >= |u| - depth))
  }

  /** Where the sweep stands in what is left of the ring. */
  lemma SweptAt<N>(w: seq<Pos<N>>, i: nat, cur: nat, depth: nat, ring: seq<Pos<N>>) returns (k: nat)
    requires Swept(w, i, cur, depth, ring)
    ensures i <= k < |ring| && ring[k] == w[cur] && |ring| - k == |w| - cur
    ensures cur + 1 < |w| ==> k + 1 < |ring| && ring[k + 1] == w[cur + 1]
    ensures depth > 0 ==> k > 0 && ring[k - 1].leading
    ensures k == i + |Keep(w[i..cur], w[i..cur])|
  {
    k := i + |Keep(w[i..cur], w[i..cur])|;
  }

  lemma SweptStretch<N>(w: seq<Pos<N>>, i: nat, cur: nat)
    requires i <= cur < |w|
    ensures w[i..cur + 1] == w[i..cur] + [w[cur]] && w[cur..] == [w[cur]] + w[cur + 1..]
  {
  }

  lemma SweepKeeps<N>(w: seq<Pos<N>>, i: nat, cur: nat, depth: nat, ring: seq<Pos<N>>, depth': nat)
    requires Swept(w, i, cur, depth, ring) && cur + 1 < |w|
    requires w[cur].Pivot() !in w[i..cur]
    requires if w[cur].leading then depth' == depth + 1 else depth == depth' == 0
    ensures Swept(w, i, cur + 1, depth', ring)
  {
    SweptStretch(w, i, cur);
    KeepExtends(w[i..cur], w[cur]);
    var u := Keep(w[i..cur], w[i..cur]);
    assert w[..i] + u + w[cur..] == w[..i] + (u + [w[cur]]) + w[cur + 1..];
  }

  lemma SweepCloses<N>(w: seq<Pos<N>>, i: nat, cur: nat, depth: nat, ring: seq<Pos<N>>, k: nat)
    requires Swept(w, i, cur, depth, ring) && cur + 1 < |w| && Distinct(w) && depth > 0
    requires k == i + |Keep(w[i..cur], w[i..cur])| < |ring|
    requires ring[k - 1] == w[cur].Pivot()
    ensures Swept(w, i, cur + 1, depth - 1, WithoutPair(ring, k - 1, k))
  {
    var s := w[i..cur];
    var u := Keep(s, s);
    hide Keep, WithoutPair, Distinct;
    SweptStretch(w, i, cur);
    assert w == w[..i] + s + w[cur..];
    DistinctRuns(w[..i], s, w[cur..]);
    assert ring[k - 1] == u[|u| - 1];
    KeepCloses(s, w[cur]);
    DropAtJoint(w[..i], u, w[cur..]);
  }

  lemma DropAtJoint<A>(a: seq<A>, u: seq<A>, b: seq<A>)
    requires u != [] && b != []
    ensures WithoutPair(a + u + b, |a| + |u| - 1, |a| + |u|) == a + u[..|u| - 1] + b[1..]
  {
    var w, k := a + u + b, |a| + |u|;
    assert w[..k - 1] == a + u[..|u| - 1];
    assert w[k..k] == [] && w[k + 1..] == b[1..];
  }

  /** In the word of a tree a node's leading edge comes first. */
  lemma LeadingFirst<N>(t: Tree<N>, k: nat)
    requires Distinct(Word(t)) && k < |Word(t)| && Word(t)[k].leading
    ensures Word(t)[k].Pivot() !in Word(t)[..k]
  {
    var j := Enclosed(t, k);
    DistinctByIndex(Word(t));
  }

  /** A trailing edge met with no open leading edge belongs to a node opened before. */
  lemma NothingOpen<N>(w: seq<Pos<N>>, i: nat, cur: nat, ring: seq<Pos<N>>)
    requires Swept(w, i, cur, 0, ring) && Distinct(w) && !w[cur].leading
    ensures w[cur].Pivot() !in w[i..cur]
  {
    var s, p := w[i..cur], w[cur];
    assert p.Pivot().Pivot() == p;
    DistinctByIndex(w);
    assert forall k :: 0 <= k < |s| ==> s[k] == w[i + k];
    assert p !in s;
    KeepMembers(s, s, p.Pivot());
  }

  /** erase(first, last): removes exactly the nodes with both edges in [first, last). */
  method EraseRange<T(0)>(f: Forest<T>, first: Iter<T>, last: Iter<T>) returns (result: Iter<T>)
    requires f.Valid() && first in f.ring && last in f.ring
    requires Find(f.ring, first) <= Find(f.ring, last)
    modifies f, f.Repr()`leadingNext, f.Repr()`leadingPrior, f.Repr()`trailingNext, f.Repr()`trailingPrior
    ensures f.Valid()
    ensures var i := old(Find(f.ring, first)); var j := old(Find(f.ring, last));
            f.ring == old(f.ring)[..i] + Keep(old(f.ring)[i..j], old(f.ring)[i..j]) + old(f.ring)[j..]
    ensures result == last
  {
    hide Word, Ring, Distinct, Find, Keep, Swept;
    ghost var t, w, i, j := f.root, f.ring, Find(f.ring, first), Find(f.ring, last);
    ghost var cur := i;
    var depth: nat := 0;
    var position := first;
    SweepStarts(w, i);
    FindDistinct(w, j);
    while position != last
      invariant i <= cur <= j && position == w[cur]
      invariant f.Valid() && f.Repr() <= NodesOf(w)
      invariant Swept(w, i, cur, depth, f.ring)
      decreases j - cur
    {
      FindDistinct(w, cur);
      position, depth := SweepStep(f, position, depth, t, w, i, cur);
      cur := cur + 1;
    }
    FindDistinct(w, cur);
    SweepEnds(w, i, cur, depth, f.ring);
    return last;
  }

  /** One round of the loop of erase(first, last). */
  method SweepStep<T(0)>(f: Forest<T>, position: Iter<T>, depth: nat,
                         ghost t: Tree<Node<T>>, ghost w: seq<Iter<T>>, ghost i: nat, ghost cur: nat)
    returns (position': Iter<T>, depth': nat)
    requires f.Valid() && w == Word(t) && Distinct(w) && cur + 1 < |w| && position == w[cur] && t.node == f.tail
    requires Swept(w, i, cur, depth, f.ring)
    modifies f, f.Repr()`leadingNext, f.Repr()`leadingPrior, f.Repr()`trailingNext, f.Repr()`trailingPrior
    ensures f.Valid() && f.Repr() <= old(f.Repr()) && position' == w[cur + 1]
    ensures Swept(w, i, cur + 1, depth', f.ring)
  {
    hide Word, Ring, Distinct, Find, Keep, Swept, Promote;
    ghost var k := SweptAt(w, i, cur, depth, f.ring);
    IncrementSteps(f.root, k);
    if position.leading {
      LeadingFirst(t, cur);
      SweepKeeps(w, i, cur, depth, f.ring, depth + 1);
      return Increment(position), depth + 1;
    } else if depth == 0 {
      NothingOpen(w, i, cur, f.ring);
      SweepKeeps(w, i, cur, depth, f.ring, 0);
      return Increment(position), 0;
    } else {
      LeafStep(f.root, k - 1);
      SweepCloses(w, i, cur, depth, f.ring, k);
      f.RootFirst();
      FindDistinct(f.ring, k);
      FindDistinct(f.ring, |f.ring| - 1);
      position' := EraseLeaf(f, position, k - 1);
      depth' := depth - 1;
    }
  }

  /** erase of a leaf, at its trailing edge. */
  method EraseLeaf<T(0)>(f: Forest<T>, position: Iter<T>, ghost k: nat) returns (next: Iter<T>)
    requires f.Valid() && 0 < k && k + 2 < |f.ring| && f.ring[k] == LeadingOf(position) && f.ring[k + 1] == position && !position.leading
    modifies f, f.Repr()`leadingNext, f.Repr()`leadingPrior, f.Repr()`trailingNext, f.Repr()`trailingPrior
    ensures f.Valid() && f.Repr() <= old(f.Repr())
    ensures f.ring == WithoutPair(old(f.ring), k, k + 1) && next == old(f.ring)[k + 2]
  {
    hide Word, Ring, Distinct, Find, Promote;
    FindDistinct(f.ring, k);
    FindDistinct(f.ring, k + 1);
    SmallerNodes(f.ring, k, k + 1);
    f.RootFirst();
    FindDistinct(f.ring, |f.ring| - 1);
    next := f.Erase(position);
  }

  lemma SmallerNodes<T(0)>(w: seq<Iter<T>>, i: nat, j: nat)
    requires i < j < |w|
    ensures NodesOf(WithoutPair(w, i, j)) <= NodesOf(w)
  {
    assert forall p :: p in WithoutPair(w, i, j) ==> p in w;
  }

  lemma SweepStarts<N>(w: seq<Pos<N>>, i: nat)
    requires i < |w|
    ensures Swept(w, i, i, 0, w)
  {
  }

  lemma SweepEnds<N>(w: seq<Pos<N>>, i: nat, j: nat, depth: nat, ring: seq<Pos<N>>)
    requires Swept(w, i, j, depth, ring)
    ensures ring == w[..i] + Keep(w[i..j], w[i..j]) + w[j..]
  {
  }

  // ---- push_back ------------------------------------------------------------------------------

  lemma PlugAtEnd<N>(t: Tree<N>, fs: seq<Tree<N>>)
    ensures PlugTree(t, |Word(t)| - 1, fs) == Tree(t.node, t.children + fs)
  {
    hide PlugTree;
    var u := Tree(t.node, t.children + fs);
    PlugTreeWord(t, |Word(t)| - 1, fs);
    WordsConcat(t.children, fs);
    var open, close := [Pos(t.node, true)], [Pos(t.node, false)];
    assert Word(t)[..|Word(t)| - 1] == open + Words(t.children) && Word(t)[|Word(t)| - 1..] == close;
    assert Word(PlugTree(t, |Word(t)| - 1, fs)) == Word(u);
    WordDetermines(PlugTree(t, |Word(t)| - 1, fs), u);
  }

  /** push_back: the new leaf is the last tree of the forest. */
  method Append<T(0)>(f: Forest<T>, x: T) returns (result: Iter<T>)
    requires f.Valid()
    modifies f, f.Repr()`leadingNext, f.Repr()`leadingPrior, f.Repr()`trailingNext, f.Repr()`trailingPrior
    ensures f.Valid() && fresh(result.node) && result.leading
    ensures f.root == Tree(f.tail, old(f.root).children + [Tree(result.node, [])])
    ensures forall n :: n in f.Repr() ==> n in old(f.Repr()) || n == result.node
  {
    hide Word, Words, Ring, Distinct, Linked, Count, Find, PlugTree;
    f.RootFirst();
    ghost var t, w := f.root, f.ring;
    FindDistinct(w, |w| - 1);
    result := f.Insert(f.End(), x);
    PlugAtEnd(t, [Tree(result.node, [])]);
    PlugTreeWord(t, |w| - 1, [Tree(result.node, [])]);
    LeafWord(result.node);
    assert forall p :: p in f.ring ==> p in w || p.node == result.node;
  }
}
