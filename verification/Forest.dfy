/**
 * adobe::forest: pointer surgery on one ring of links through a sentinel, proved against
 * the rose forest the ring spells.
 */
module Forests {
  import opened RoseForest
  import opened ForestLinks

  class Forest<T(0)> {
    const tail: Node<T>
    var size: nat
    ghost var root: Tree<Node<T>>

    ghost var ring: seq<Iter<T>>

    ghost function Repr(): set<Node<T>>
      reads this
    {
      NodesOf(ring)
    }

    ghost predicate Valid()
      reads this, Repr()
    {
      && root.node == tail
      && ring == Word(root)
      && Distinct(ring)
      && Ring(ring)
      && (size == 0 || size == Count(root.children))
    }

    constructor ()
      ensures Valid() && fresh(Repr())
      ensures root == Tree(tail, [])
    {
      var sentinel := new Node<T>.Sentinel();
      tail, size, root := sentinel, 0, Tree(sentinel, []);
      ring := [Pos(sentinel, true), Pos(sentinel, false)];
      new;
      DistinctByIndex(ring);
      LinkedByIndex(ring);
    }

    function Root(): Iter<T> { Pos(tail, true) }

    function End(): Iter<T> { Pos(tail, false) }

    /** size_valid() */
    function SizeValid(): bool
      reads this, tail, tail.leadingNext
    {
      size != 0 || Empty()
    }

    /** The count is known when it is not zero, and in a forest without trees. */
    lemma SizeValidIff()
      requires Valid()
      ensures SizeValid() <==> size != 0 || root.children == []
    {
      hide Word, Ring, Distinct, Count;
      EmptyIff();
    }

    /** empty(): begin() == end() */
    function Empty(): bool
      reads this, tail, tail.leadingNext
    {
      Increment(Root()) == End()
    }

    lemma RootFirst()
      requires Valid()
      ensures |ring| >= 2 && ring[0] == Root() && ring[|ring| - 1] == End()
    {
    }

    lemma NotTheRoot(k: nat)
      requires Valid() && 0 < k < |ring| - 1
      ensures ring[k].node != tail
    {
      DistinctByIndex(ring);
      assert ring[k] == Pos(ring[k].node, true) || ring[k] == Pos(ring[k].node, false);
    }

    lemma EmptyIff()
      requires Valid()
      ensures Empty() <==> root.children == []
    {
      IncrementSteps(root, 0);
      StartsLeading(root.children, [Pos(tail, false)]);
    }

    /** The cached count follows one insertion: it is bumped exactly when it is known. */
    method Grow()
      requires Valid()
      modifies this`size
      ensures size == if old(SizeValid()) then Count(root.children) + 1 else 0
    {
      EmptyIff();
      if SizeValid() { size := size + 1; }
    }

    method Insert(position: Iter<T>, x: T) returns (result: Iter<T>)
      requires Valid() && position in ring && position != Root()
      modifies this, Repr()`leadingNext, Repr()`leadingPrior, Repr()`trailingNext, Repr()`trailingPrior
      ensures Valid() && fresh(result.node) && result.leading && result.node.data == x
      ensures size == if old(SizeValid()) then Count(root.children) else 0
      ensures 1 <= old(Find(ring, position))
      ensures root == PlugTree(old(root), old(Find(ring, position)), [Tree(result.node, [])])
    {
      hide Word, Ring, Distinct, Linked, Count, Find, PlugTree, InsertAt;
      ghost var t, w, k := root, ring, Find(ring, position);
      assert w[0] == Root();
      Grow();
      var node := new Node<T>(x);
      result := Pos(node, true);
      ghost var leaf := [result, result.Pivot()];
      assert forall i :: 0 <= i < |w| ==> w[i].node != node;
      PlugLeaf(t, k, node);
      root, ring := PlugTree(t, k, [Tree(node, [])]), InsertAt(w, k, leaf);
      LinkedByIndex(leaf);
      LinkIn(position, result, Increment(result), t, w, k, leaf);
    }

    /** The cached count follows one removal. */
    method Shrink()
      requires Valid() && root.children != []
      modifies this`size
      ensures size == if old(SizeValid()) then Count(root.children) - 1 else 0
    {
      EmptyIff();
      if SizeValid() { size := size - 1; }
    }

    /**
     * erase(position): takes one node out and promotes its children, in order, to its
     * place.  Returns what now stands at the leading edge, or what followed the trailing
     * edge.
     */
    method Erase(position: Iter<T>) returns (next: Iter<T>)
      requires Valid() && position in ring && position.node != tail
      modifies this, Repr()`leadingNext, Repr()`leadingPrior, Repr()`trailingNext, Repr()`trailingPrior
      ensures old(LeadingOf(position) in ring && TrailingOf(position) in ring)
      ensures var i := old(Find(ring, LeadingOf(position))); var j := old(Find(ring, TrailingOf(position)));
              && 0 < i < j < |old(ring)| - 1
              && old(Word(root)[i].leading) && root == Promote(old(root), i)
              && ring == WithoutPair(old(ring), i, j)
              && next == ring[if position.leading then i else j - 1]
      ensures Valid() && size == if old(SizeValid()) then Count(root.children) else 0
    {
      hide Word, Ring, Distinct, Framed, Count, Find, Promote;
      ghost var i, j := NodeInRing(root, position);
      ghost var t, w := root, ring;
      Shrink();
      root, ring := Promote(t, i), WithoutPair(w, i, j);
      next := EraseLinks(position, t, root, w[..i], w[i + 1..j], w[j + 1..]);
    }

    /**
     * splice(pos, x, first, last, count): moves the siblings fs in [first, last) of x in
     * front of pos.  They stand at index i of x, and c is x without them.
     */
    method Splice(pos: Iter<T>, x: Forest<T>, first: Iter<T>, last: Iter<T>, count: nat,
                  ghost c: Tree<Node<T>>, ghost i: nat, ghost fs: seq<Tree<Node<T>>>) returns (result: Iter<T>)
      requires Valid() && x.Valid() && x != this && Repr() !! x.Repr()
      requires 0 < i < |Word(c)| && x.root == PlugTree(c, i, fs)
      requires i + |Words(fs)| < |x.ring| && first == x.ring[i] && last == x.ring[i + |Words(fs)|]
      requires count == 0 || count == Count(fs)
      requires pos in ring && pos != Root()
      modifies this, Repr()`leadingNext, Repr()`leadingPrior, Repr()`trailingNext, Repr()`trailingPrior
      modifies x, x.Repr()`leadingNext, x.Repr()`leadingPrior, x.Repr()`trailingNext, x.Repr()`trailingPrior
      ensures Valid() && x.Valid()
      ensures x.root == c && root == PlugTree(old(root), old(Find(ring, pos)), fs)
      ensures result == if fs == [] then pos else first
      ensures fs != [] ==> size == if count != 0 && old(SizeValid()) then Count(root.children) else 0
      ensures fs != [] ==> x.size == if count != 0 && old(x.SizeValid()) then Count(x.root.children) else 0
    {
      hide Word, Ring, Distinct, Linked, Count, Find, PlugTree, InsertAt, Words;
      ghost var t, w, k := root, ring, Find(ring, pos);
      PlugFacts(c, i, fs);
      PlugFacts(t, k, fs);
      DistinctInserted(Word(c), i, Words(fs));
      DistinctInserted(w, k, Words(fs));
      InsertedRun(Word(c), i, Words(fs));
      NodesApart(w, Words(fs));
      if first == last {
        return pos;
      }
      SpliceCounts(x, count, c, fs);
      x.root, x.ring, root, ring := c, Word(c), PlugTree(t, k, fs), InsertAt(w, k, Words(fs));
      MoveAcross(pos, first, last, c, i, fs, t, w, k);
      return first;
    }

    /** splice within one forest: the siblings fs move in front of pos, counts stay. */
    method SpliceWithin(pos: Iter<T>, first: Iter<T>, last: Iter<T>,
                        ghost c: Tree<Node<T>>, ghost i: nat, ghost fs: seq<Tree<Node<T>>>) returns (result: Iter<T>)
      requires Valid()
      requires 0 < i < |Word(c)| && root == PlugTree(c, i, fs)
      requires i + |Words(fs)| < |ring| && first == ring[i] && last == ring[i + |Words(fs)|]
      requires pos == first || (pos in Word(c) && pos != Root())
      modifies this`root, this`ring
      modifies Repr()`leadingNext, Repr()`leadingPrior, Repr()`trailingNext, Repr()`trailingPrior
      ensures Valid()
      ensures root == if pos == first || fs == [] then old(root) else PlugTree(c, Find(Word(c), pos), fs)
      ensures result == if pos == first || fs == [] then pos else first
    {
      hide Word, Ring, Distinct, Linked, Count, Find, PlugTree, InsertAt, Words;
      PlugFacts(c, i, fs);
      InsertedRun(Word(c), i, Words(fs));
      if first == last || first == pos {
        return pos;
      }
      ghost var k := Find(Word(c), pos);
      PlugFacts(c, k, fs);
      root, ring := PlugTree(c, k, fs), InsertAt(Word(c), k, Words(fs));
      MoveWithin(pos, first, last, c, i, fs, k);
      return first;
    }

    /** What splice between two forests does to the cached counts. */
    method SpliceCounts(x: Forest<T>, count: nat, ghost c: Tree<Node<T>>, ghost fs: seq<Tree<Node<T>>>)
      requires Valid() && x.Valid() && x != this
      requires Count(x.root.children) == Count(c.children) + Count(fs)
      requires count == 0 || count == Count(fs)
      modifies this`size, x`size
      ensures size == if count != 0 && old(SizeValid()) then Count(root.children) + Count(fs) else 0
      ensures x.size == if count != 0 && old(x.SizeValid()) then Count(c.children) else 0
    {
      EmptyIff();
      x.EmptyIff();
      if count != 0 {
        if SizeValid() { size := size + count; }
        if x.SizeValid() { x.size := x.size - count; }
      } else {
        size, x.size := 0, 0;
      }
    }
  }

  /** w without its i-th and its j-th element. */
  ghost function WithoutPair<A>(w: seq<A>, i: nat, j: nat): seq<A>
    requires i < j < |w|
  {
    w[..i] + w[i + 1..j] + w[j + 1..]
  }

  function LeadingOf<N>(p: Pos<N>): Pos<N> { Pos(p.node, true) }

  function TrailingOf<N>(p: Pos<N>): Pos<N> { Pos(p.node, false) }

  /** The tree with the node at leading position i replaced by its children. */
  ghost function Promote<N>(t: Tree<N>, i: nat): Tree<N>
    requires 0 < i < |Word(t)| && Word(t)[i].leading
  {
    assert Word(t)[i] == Words(t.children)[i - 1];
    SubtreePlugs(t.children, i - 1);
    PlugTree(Tree(t.node, Without(t.children, i - 1)), i, SubtreeAt(t.children, i - 1).children)
  }

  /** A tree as the rest of it around one of its subtrees. */
  lemma PromoteParts<N>(t: Tree<N>, i: nat) returns (rest: Tree<N>, s: Tree<N>)
    requires 0 < i < |Word(t)| && Word(t)[i].leading
    ensures s.node == Word(t)[i].node && rest.node == t.node && i < |Word(rest)|
    ensures PlugTree(rest, i, [s]) == t && Promote(t, i) == PlugTree(rest, i, s.children)
  {
    hide Words, PlugForest, SubtreeAt, Without;
    assert Word(t)[i] == Words(t.children)[i - 1];
    SubtreePlugs(t.children, i - 1);
    s, rest := SubtreeAt(t.children, i - 1), Tree(t.node, Without(t.children, i - 1));
  }

  lemma SubtreeWord<N>(s: Tree<N>)
    ensures Words([s]) == [Pos(s.node, true)] + Words(s.children) + [Pos(s.node, false)] && Count([s]) == 1 + Count(s.children)
  {
    WordsSingle(s);
  }

  /** The word of a tree around one of its nodes, and the word once the node is promoted. */
  lemma PromoteWord<N>(t: Tree<N>, i: nat) returns (a: seq<Pos<N>>, m: seq<Pos<N>>, b: seq<Pos<N>>)
    requires 0 < i < |Word(t)| && Word(t)[i].leading
    ensures |a| == i && b != [] && Word(t) == Framed(a, Word(t)[i], m, Word(t)[i].Pivot(), b)
    ensures Word(Promote(t, i)) == a + m + b
    ensures t.children != [] && Count(Promote(t, i).children) == Count(t.children) - 1
    ensures Promote(t, i).node == t.node
  {
    hide PlugTree, Promote, Count, Word, Words, Framed;
    var rest, s := PromoteParts(t, i);
    SubtreeWord(s);
    PlugFacts(rest, i, [s]);
    PlugFacts(rest, i, s.children);
    a, m, b := Word(rest)[..i], Words(s.children), Word(rest)[i..];
    FramedIs(a, Pos(s.node, true), m, Pos(s.node, false), b);
    NoChildren(t);
  }

  lemma NoChildren<N>(t: Tree<N>)
    ensures t.children == [] ==> Count(t.children) == 0
  {
  }

  /** Where the two edges of a node stand, and the word spelled without them. */
  lemma NodeInRing<N>(t: Tree<N>, p: Pos<N>) returns (i: nat, j: nat)
    requires Distinct(Word(t)) && p in Word(t) && p.node != t.node
    ensures LeadingOf(p) in Word(t) && TrailingOf(p) in Word(t)
    ensures i == Find(Word(t), LeadingOf(p)) && j == Find(Word(t), TrailingOf(p))
    ensures 0 < i < j < |Word(t)| - 1 && Word(t)[i].leading
    ensures Word(t) == Framed(Word(t)[..i], LeadingOf(p), Word(t)[i + 1..j], TrailingOf(p), Word(t)[j + 1..])
    ensures Word(Promote(t, i)) == WithoutPair(Word(t), i, j) && Distinct(Word(Promote(t, i)))
    ensures Promote(t, i).node == t.node
    ensures t.children != [] && Count(Promote(t, i).children) == Count(t.children) - 1
  {
    hide Word, Distinct, Count, Promote, Find, Framed;
    OtherEdge(t, p);
    i := Find(Word(t), LeadingOf(p));
    var a, m, b := PromoteWord(t, i);
    j := i + 1 + |m|;
    FramedParts(Word(t), a, LeadingOf(p), m, TrailingOf(p), b);
    FindDistinct(Word(t), j);
    DistinctRemove(a, LeadingOf(p), m, TrailingOf(p), b);
  }

  lemma OtherEdge<N>(t: Tree<N>, p: Pos<N>)
    requires p in Word(t)
    ensures p.Pivot() in Word(t)
  {
    hide Word;
    WordsSingle(t);
    BothEdges([t], p);
  }

  lemma FramedParts<A>(w: seq<A>, a: seq<A>, x: A, m: seq<A>, y: A, b: seq<A>)
    requires w == Framed(a, x, m, y, b)
    ensures a == w[..|a|] && m == w[|a| + 1..|a| + 1 + |m|] && b == w[|a| + |m| + 2..]
  {
  }

  lemma DistinctRemove<A>(a: seq<A>, x: A, m: seq<A>, y: A, b: seq<A>)
    requires Distinct(Framed(a, x, m, y, b))
    ensures Distinct(a + m + b)
  {
    var w, r := Framed(a, x, m, y, b), a + m + b;
    assert multiset(w) == multiset(r) + multiset{x, y};
    assert forall z :: z in r ==> z in w && multiset(w)[z] == 1;
  }

  /** a, then x, then m, then y, then b. */
  ghost function Framed<A>(a: seq<A>, x: A, m: seq<A>, y: A, b: seq<A>): (w: seq<A>)
    ensures |w| == |a| + |m| + |b| + 2
    ensures w[|a|] == x && w[|a| + 1 + |m|] == y
    ensures a != [] ==> w[|a| - 1] == a[|a| - 1]
    ensures b != [] ==> w[|a| + |m| + 2] == b[0]
    ensures m != [] ==> w[|a| + 1] == m[0] && w[|a| + |m|] == m[|m| - 1]
  {
    a + [x] + m + [y] + b
  }

  /** What the steps around a node see. */
  lemma AroundNode<T(0)>(p: Iter<T>, t: Tree<Node<T>>, a: seq<Iter<T>>, m: seq<Iter<T>>, b: seq<Iter<T>>)
    requires a != [] && b != [] && Word(t) == Framed(a, LeadingOf(p), m, TrailingOf(p), b)
    requires Distinct(Word(t)) && Ring(Word(t))
    ensures Decrement(LeadingOf(p)) == a[|a| - 1] && Increment(TrailingOf(p)) == b[0]
    ensures m != [] ==> Increment(LeadingOf(p)) == m[0] && Decrement(TrailingOf(p)) == m[|m| - 1]
    ensures m != [] <==> Increment(LeadingOf(p)).node != p.node
  {
    DecrementSteps(t, |a| - 1);
    IncrementSteps(t, |a|);
    DecrementSteps(t, |a| + |m|);
    IncrementSteps(t, |a| + |m| + 1);
    DistinctByIndex(Word(t));
  }

  lemma FramedOpens<T(0)>(a: seq<Iter<T>>, x: Iter<T>, m: seq<Iter<T>>, y: Iter<T>, b: seq<Iter<T>>)
    requires a != [] && b != [] && Ring(Framed(a, x, m, y, b))
    ensures OpenRing(a, b) && Linked(m)
  {
    hide Framed, Ring, Linked;
    FramedIs(a, x, m, y, b);
    RingOpens(a, [x] + m + [y], b);
    LinkedSplit([x] + m, [y]);
    LinkedSplit([x], m);
  }

  lemma FramedIs<A>(a: seq<A>, x: A, m: seq<A>, y: A, b: seq<A>)
    ensures Framed(a, x, m, y, b) == a + ([x] + m + [y]) + b
  {
  }

  /** The link surgery of erase(position). */
  method EraseLinks<T(0)>(position: Iter<T>, ghost t: Tree<Node<T>>, ghost u: Tree<Node<T>>,
                          ghost a: seq<Iter<T>>, ghost m: seq<Iter<T>>, ghost b: seq<Iter<T>>) returns (next: Iter<T>)
    requires a != [] && b != []
    requires Word(t) == Framed(a, LeadingOf(position), m, TrailingOf(position), b) && Word(u) == a + m + b
    requires Distinct(Word(t)) && Ring(Word(t)) && Distinct(Word(u))
    modifies NodesOf(a + m + b)`leadingNext, NodesOf(a + m + b)`leadingPrior
    modifies NodesOf(a + m + b)`trailingNext, NodesOf(a + m + b)`trailingPrior
    ensures Ring(Word(u))
    ensures next == if position.leading then Word(u)[|a|] else b[0]
  {
    AroundNode(position, t, a, m, b);
    FramedOpens(a, LeadingOf(position), m, TrailingOf(position), b);
    var leadingPrior := Decrement(LeadingOf(position));
    var leadingNext := Increment(LeadingOf(position));
    var trailingPrior := Decrement(TrailingOf(position));
    var trailingNext := Increment(TrailingOf(position));
    ghost var w := a + m + b;
    assert leadingPrior == w[|a| - 1] && trailingNext == w[|a + m|];
    if leadingNext.node != position.node {
      assert leadingNext == w[|a|] && trailingPrior == w[|a + m| - 1];
      LinkBetween(leadingPrior, leadingNext, trailingPrior, trailingNext, a, m, b);
    } else {
      assert a + m + b == a + b;
      Close(leadingPrior, trailingNext, a, m, b);
    }
    IncrementSteps(u, |a| - 1);
    next := if position.leading then Increment(leadingPrior) else trailingNext;
  }

  /** Takes the siblings fs, from first to back, out of the ring of PlugTree(c, i, fs). */
  method Unlink<T(0)>(first: Iter<T>, last: Iter<T>, back: Iter<T>,
                      ghost c: Tree<Node<T>>, ghost i: nat, ghost fs: seq<Tree<Node<T>>>)
    requires 0 < i < |Word(c)| && fs != [] && Words(fs) != []
    requires Word(PlugTree(c, i, fs)) == InsertAt(Word(c), i, Words(fs))
    requires Distinct(InsertAt(Word(c), i, Words(fs))) && Ring(InsertAt(Word(c), i, Words(fs)))
    requires first == Words(fs)[0] && last == Word(c)[i] && back == Decrement(last)
    modifies NodesOf(Word(c))`leadingNext, NodesOf(Word(c))`leadingPrior
    modifies NodesOf(Word(c))`trailingNext, NodesOf(Word(c))`trailingPrior
    ensures Ring(Word(c)) && Linked(Words(fs)) && back == Words(fs)[|Words(fs)| - 1]
  {
    ghost var w, m := Word(c), Words(fs);
    hide Word, Distinct, Words, PlugTree;
    ghost var a, b := w[..i], w[i..];
    ghost var r := a + m + b;
    assert r[i - 1] == a[i - 1] == w[i - 1] && r[i] == m[0] && r[i + |m| - 1] == m[|m| - 1] && r[i + |m|] == b[0] == w[i];
    DecrementSteps(PlugTree(c, i, fs), i - 1);
    DecrementSteps(PlugTree(c, i, fs), i + |m| - 1);
    RingOpens(a, m, b);
    assert w == a + b && w[i - 1] in w && w[i] in w;
    Close(Decrement(first), last, a, m, b);
  }

  /** The link surgery of splice between two rings. */
  method MoveAcross<T(0)>(pos: Iter<T>, first: Iter<T>, last: Iter<T>,
                          ghost c: Tree<Node<T>>, ghost i: nat, ghost fs: seq<Tree<Node<T>>>,
                          ghost t: Tree<Node<T>>, ghost w: seq<Iter<T>>, ghost k: nat)
    requires 0 < i < |Word(c)| && fs != [] && Words(fs) != []
    requires Word(PlugTree(c, i, fs)) == InsertAt(Word(c), i, Words(fs))
    requires Distinct(InsertAt(Word(c), i, Words(fs))) && Ring(InsertAt(Word(c), i, Words(fs)))
    requires first == Words(fs)[0] && last == Word(c)[i]
    requires w == Word(t) && Distinct(w) && Ring(w) && 0 < k < |w| && pos == w[k]
    requires NodesOf(w) !! NodesOf(InsertAt(Word(c), i, Words(fs)))
    requires Distinct(InsertAt(w, k, Words(fs)))
    modifies NodesOf(InsertAt(Word(c), i, Words(fs)))`leadingNext, NodesOf(InsertAt(Word(c), i, Words(fs)))`leadingPrior
    modifies NodesOf(InsertAt(Word(c), i, Words(fs)))`trailingNext, NodesOf(InsertAt(Word(c), i, Words(fs)))`trailingPrior
    modifies NodesOf(w)`leadingNext, NodesOf(w)`leadingPrior, NodesOf(w)`trailingNext, NodesOf(w)`trailingPrior
    ensures Ring(Word(c)) && Ring(InsertAt(w, k, Words(fs)))
  {
    hide Word, Words, Ring, Linked, Distinct, PlugTree, InsertAt, Decrement;
    CutApart(c, i, fs);
    assert NodesOf(w) !! NodesOf(Word(c)) && NodesOf(w) !! NodesOf(Words(fs));
    var back := Decrement(last);
    Unlink(first, last, back, c, i, fs);
    LinkIn(pos, first, back, t, w, k, Words(fs));
  }

  /** The link surgery of splice within one ring. */
  method MoveWithin<T(0)>(pos: Iter<T>, first: Iter<T>, last: Iter<T>,
                          ghost c: Tree<Node<T>>, ghost i: nat, ghost fs: seq<Tree<Node<T>>>, ghost k: nat)
    requires 0 < i < |Word(c)| && fs != [] && Words(fs) != []
    requires Word(PlugTree(c, i, fs)) == InsertAt(Word(c), i, Words(fs))
    requires Distinct(InsertAt(Word(c), i, Words(fs))) && Ring(InsertAt(Word(c), i, Words(fs)))
    requires first == Words(fs)[0] && last == Word(c)[i]
    requires 0 < k < |Word(c)| && pos == Word(c)[k]
    modifies NodesOf(InsertAt(Word(c), i, Words(fs)))`leadingNext, NodesOf(InsertAt(Word(c), i, Words(fs)))`leadingPrior
    modifies NodesOf(InsertAt(Word(c), i, Words(fs)))`trailingNext, NodesOf(InsertAt(Word(c), i, Words(fs)))`trailingPrior
    ensures Ring(InsertAt(Word(c), k, Words(fs)))
    ensures Distinct(InsertAt(Word(c), k, Words(fs)))
  {
    hide Word, Words, Ring, Linked, Distinct, PlugTree, InsertAt, Decrement;
    CutApart(c, i, fs);
    DistinctInserted(Word(c), i, Words(fs));
    DistinctInserted(Word(c), k, Words(fs));
    var back := Decrement(last);
    Unlink(first, last, back, c, i, fs);
    LinkIn(pos, first, back, c, Word(c), k, Words(fs));
  }

  /** The nodes of the siblings fs, and those that stay behind when they are taken out. */
  lemma CutApart<T(0)>(c: Tree<Node<T>>, i: nat, fs: seq<Tree<Node<T>>>)
    requires 0 < i < |Word(c)| && Words(fs) != []
    requires Distinct(InsertAt(Word(c), i, Words(fs)))
    ensures NodesOf(InsertAt(Word(c), i, Words(fs))) == NodesOf(Word(c)) + NodesOf(Words(fs))
    ensures NodesOf(Word(c)) !! NodesOf(Words(fs))
    ensures Distinct(Word(c))
    ensures Words(fs)[0].node in NodesOf(Words(fs)) && Words(fs)[|Words(fs)| - 1].node in NodesOf(Words(fs))
  {
    InsertedRun(Word(c), i, Words(fs));
    DistinctInserted(Word(c), i, Words(fs));
    ForestApart(Word(c), fs);
  }

  /** Plugging, seen on words, counts and distinctness. */
  lemma PlugFacts<N>(c: Tree<N>, i: nat, fs: seq<Tree<N>>)
    requires 0 < i < |Word(c)|
    ensures Word(PlugTree(c, i, fs)) == InsertAt(Word(c), i, Words(fs))
    ensures PlugTree(c, i, fs).node == c.node
    ensures Count(PlugTree(c, i, fs).children) == Count(c.children) + Count(fs)
    ensures fs == [] <==> Words(fs) == []
    ensures fs == [] ==> PlugTree(c, i, fs) == c
  {
    PlugTreeWord(c, i, fs);
    CountByWord(c);
    CountByWord(PlugTree(c, i, fs));
    TwoPositionsPerNode(fs);
    if fs == [] {
      assert InsertAt(Word(c), i, []) == Word(c);
      WordDetermines(PlugTree(c, i, fs), c);
    } else {
      StartsLeading(fs, []);
    }
  }

  lemma NodesApart<T(0)>(w: seq<Iter<T>>, s: seq<Iter<T>>)
    requires NodesOf(w) !! NodesOf(s)
    ensures forall p :: p in s ==> p !in w
  {
    forall p | p in s
      ensures p !in w
    {
      assert p.node in NodesOf(s);
      assert p in w ==> p.node in NodesOf(w);
    }
  }

  /** The nodes of a forest do not occur elsewhere in a word without repetitions. */
  lemma ForestApart<T(0)>(w: seq<Iter<T>>, fs: seq<Tree<Node<T>>>)
    requires forall p :: p in Words(fs) ==> p !in w
    ensures NodesOf(w) !! NodesOf(Words(fs))
  {
    forall p, q | p in w && q in Words(fs)
      ensures p.node != q.node
    {
      BothEdges(fs, q);
      assert p != q && p != q.Pivot();
    }
  }

  lemma InsertedRun<T(0)>(w: seq<Iter<T>>, k: nat, s: seq<Iter<T>>)
    requires k < |w|
    ensures NodesOf(InsertAt(w, k, s)) == NodesOf(w) + NodesOf(s)
    ensures |InsertAt(w, k, s)| == |w| + |s| && InsertAt(w, k, s)[k + |s|] == w[k]
    ensures s != [] ==> InsertAt(w, k, s)[k] == s[0] && s[0] in s && s[|s| - 1] in s
    ensures Distinct(InsertAt(w, k, s)) ==> (s == [] <==> InsertAt(w, k, s)[k] == w[k])
  {
    var r := InsertAt(w, k, s);
    assert w == w[..k] + w[k..];
    assert forall p :: p in r <==> p in w || p in s;
    DistinctByIndex(r);
  }

  lemma DistinctInserted<A>(w: seq<A>, k: nat, s: seq<A>)
    requires k <= |w|
    ensures Distinct(InsertAt(w, k, s)) <==> Distinct(w) && Distinct(s) && forall x :: x in s ==> x !in w
  {
    var r := InsertAt(w, k, s);
    assert w == w[..k] + w[k..];
    assert multiset(r) == multiset(w) + multiset(s);
    assert forall x :: x in r <==> x in multiset(r);
    assert forall x :: x in w <==> x in multiset(w);
    assert forall x :: x in s <==> x in multiset(s);
    if Distinct(r) {
      forall x | x in s ensures x !in w { assert multiset(r)[x] == 1; }
      forall x | x in w ensures multiset(w)[x] == 1 { assert multiset(r)[x] == 1; }
      forall x | x in s ensures multiset(s)[x] == 1 { assert multiset(r)[x] == 1; }
    }
  }

  /** Links the run seg, from first to back, in front of the k-th position. */
  method LinkIn<T(0)>(position: Iter<T>, first: Iter<T>, back: Iter<T>,
                      ghost t: Tree<Node<T>>, ghost w: seq<Iter<T>>, ghost k: nat, ghost seg: seq<Iter<T>>)
    requires w == Word(t) && Distinct(w) && Ring(w) && 0 < k < |w| && position == w[k]
    requires seg != [] && first == seg[0] && back == seg[|seg| - 1] && Linked(seg)
    requires Distinct(InsertAt(w, k, seg))
    modifies NodesOf(w)`leadingNext, NodesOf(w)`leadingPrior, NodesOf(w)`trailingNext, NodesOf(w)`trailingPrior
    modifies first.node`leadingPrior, first.node`trailingPrior, back.node`leadingNext, back.node`trailingNext
    ensures Ring(InsertAt(w, k, seg))
  {
    OpensAt(t, w, k);
    LinkBetween(Decrement(position), first, back, position, w[..k], seg, w[k..]);
  }

  /** The ring of a tree, opened in front of position k. */
  lemma OpensAt<T(0)>(t: Tree<Node<T>>, w: seq<Iter<T>>, k: nat)
    requires w == Word(t) && Distinct(w) && Ring(w) && 0 < k < |w|
    ensures Decrement(w[k]) == w[k - 1] && w[k - 1] in w && w[k] in w
    ensures OpenRing(w[..k], w[k..])
  {
    DecrementSteps(t, k - 1);
    assert w == w[..k] + [] + w[k..];
    RingOpens(w[..k], [], w[k..]);
  }

  lemma PlugLeaf<N>(t: Tree<N>, k: nat, n: N)
    requires 0 < k < |Word(t)| && Distinct(Word(t))
    requires forall p :: p in Word(t) ==> p.node != n
    ensures var u := PlugTree(t, k, [Tree(n, [])]);
            && Word(u) == InsertAt(Word(t), k, [Pos(n, true), Pos(n, false)])
            && Distinct(Word(u))
            && Count(u.children) == Count(t.children) + 1
  {
    hide PlugTree, InsertAt, Distinct, Word, Words, Count;
    LeafWord(n);
    PlugFacts(t, k, [Tree(n, [])]);
    DistinctInserted(Word(t), k, Words([Tree(n, [])]));
  }

  lemma LeafWord<N>(n: N)
    ensures Words([Tree(n, [])]) == [Pos(n, true), Pos(n, false)]
    ensures Distinct(Words([Tree(n, [])])) && Count([Tree(n, [])]) == 1
  {
    assert [Tree(n, [])][1..] == [];
    DistinctByIndex(Words([Tree(n, [])]));
  }

  lemma CountByWord<N>(t: Tree<N>)
    ensures |Word(t)| == 2 * Count(t.children) + 2
  {
    TwoPositionsPerNode(t.children);
  }
}
