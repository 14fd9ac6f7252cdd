/**
 * The nodes of adobe::forest, their two-by-two table of links and the iterator that walks
 * them.  Edges are not stored: an iterator recovers the edge it arrives on from the links.
 */
module ForestLinks {
  import opened RoseForest

  class Node<T(0)> {
    var data: T
    // link(forest_leading_edge, next_s), link(forest_leading_edge, prior_s), ...
    var leadingNext: Node<T>
    var leadingPrior: Node<T>
    var trailingNext: Node<T>
    var trailingPrior: Node<T>

    constructor (x: T)
      ensures data == x
      ensures leadingNext == leadingPrior == trailingNext == trailingPrior == this
    {
      data := x;
      leadingNext, leadingPrior, trailingNext, trailingPrior := this, this, this, this;
    }

    /** The sentinel of a forest: links only, its data is never looked at. */
    constructor Sentinel()
      ensures leadingNext == leadingPrior == trailingNext == trailingPrior == this
    {
      leadingNext, leadingPrior, trailingNext, trailingPrior := this, this, this, this;
    }
  }

  type Iter<T(0)> = Pos<Node<T>>

  function Next<T(0)>(p: Iter<T>): Node<T>
    reads p.node
  {
    if p.leading then p.node.leadingNext else p.node.trailingNext
  }

  function Prior<T(0)>(p: Iter<T>): Node<T>
    reads p.node
  {
    if p.leading then p.node.leadingPrior else p.node.trailingPrior
  }

  /** forest_iterator::increment */
  function Increment<T(0)>(p: Iter<T>): Iter<T>
    reads p.node, Next(p)
  {
    var next := Next(p);
    Pos(next, if p.leading then next != p.node else next.leadingPrior == p.node)
  }

  /** forest_iterator::decrement */
  function Decrement<T(0)>(p: Iter<T>): Iter<T>
    reads p.node, Prior(p)
  {
    var prior := Prior(p);
    Pos(prior, if p.leading then prior.trailingNext != p.node else prior == p.node)
  }

  ghost predicate Adjacent<T(0)>(p: Iter<T>, q: Iter<T>)
    reads p.node, q.node
  {
    Next(p) == q.node && Prior(q) == p.node
  }

  ghost function NodesOf<T(0)>(s: seq<Iter<T>>): set<Node<T>> {
    set p | p in s :: p.node
  }

  /** Consecutive positions of s are linked to each other. */
  ghost predicate Linked<T(0)>(s: seq<Iter<T>>)
    reads NodesOf(s)
  {
    |s| <= 1 || (LinkedReads(s); Adjacent(s[0], s[1]) && Linked(s[1..]))
  }

  lemma LinkedReads<T(0)>(s: seq<Iter<T>>)
    requires |s| > 1
    ensures s[0].node in NodesOf(s) && s[1].node in NodesOf(s) && NodesOf(s[1..]) <= NodesOf(s)
  {
    assert s[0] in s && s[1] in s;
  }

  ghost predicate AllAdjacent<T(0)>(s: seq<Iter<T>>)
    reads NodesOf(s)
  {
    forall i, j :: 0 <= i < |s| && 0 <= j < |s| && j == i + 1 ==> Adjacent(s[i], s[j])
  }

  lemma {:induction false} LinkedByIndex<T(0)>(s: seq<Iter<T>>)
    ensures Linked(s) <==> AllAdjacent(s)
  {
    if |s| > 1 {
      LinkedByIndex(s[1..]);
      assert forall j :: 0 < j < |s| ==> s[j] == s[1..][j - 1];
    }
  }

  /** s is linked and closes into a ring. */
  ghost predicate Ring<T(0)>(s: seq<Iter<T>>)
    reads NodesOf(s)
  {
    s != [] && Linked(s) && Adjacent(s[|s| - 1], s[0])
  }

  ghost function After<A>(s: seq<A>, i: nat): (j: nat)
    requires i < |s|
    ensures j < |s|
  {
    if i + 1 < |s| then i + 1 else 0
  }

  lemma IncrementSteps<T(0)>(t: Tree<Node<T>>, i: nat)
    requires Distinct(Word(t)) && Ring(Word(t)) && i < |Word(t)|
    ensures Increment(Word(t)[i]) == Word(t)[After(Word(t), i)]
  {
    var w := Word(t);
    var p, q := w[i], w[After(w, i)];
    DistinctByIndex(w);
    LinkedByIndex(w);
    assert Adjacent(p, q);
    if i + 1 == |w| {
    } else if p.leading {
      if !q.leading { LeafStep(t, i); }
      assert q.node == p.node ==> q == p.Pivot();
    } else if !q.leading {
      WordsSingle(t);
      BothEdges([t], q);
      var j :| 0 <= j < |w| && w[j] == q.Pivot();
      if j == 0 {
        assert q == w[|w| - 1];
        assert Adjacent(w[|w| - 1], w[0]);
        assert p != w[|w| - 1] && p != w[0];
      } else {
        LastChildNotBefore(t, i, j);
        assert Adjacent(w[j - 1], w[j]);
      }
    }
  }

  lemma DecrementSteps<T(0)>(t: Tree<Node<T>>, i: nat)
    requires Distinct(Word(t)) && Ring(Word(t)) && i < |Word(t)|
    ensures Decrement(Word(t)[After(Word(t), i)]) == Word(t)[i]
  {
    var w := Word(t);
    var p, q := w[i], w[After(w, i)];
    DistinctByIndex(w);
    LinkedByIndex(w);
    assert Adjacent(p, q);
    if i + 1 == |w| {
    } else if !q.leading {
      if p.leading { LeafStep(t, i); }
      assert q.node == p.node ==> q == p.Pivot();
    } else if p.leading {
      WordsSingle(t);
      BothEdges([t], p);
      var j :| 0 <= j < |w| && w[j] == p.Pivot();
      if j + 1 == |w| {
        assert p == w[0];
        assert Adjacent(w[|w| - 1], w[0]);
        assert q != w[|w| - 1] && q != w[0];
      } else {
        FirstChildNotAfter(t, i, j);
        assert Adjacent(w[j], w[j + 1]);
      }
    }
  }

  /** Stepping forward and back are inverse, all the way round. */
  lemma StepsInverse<T(0)>(t: Tree<Node<T>>, p: Iter<T>)
    requires Distinct(Word(t)) && Ring(Word(t)) && p in Word(t)
    ensures Decrement(Increment(p)) == p && Increment(Decrement(p)) == p
  {
    hide Word, Ring, Distinct, Increment, Decrement;
    var w := Word(t);
    var i: nat :| i < |w| && w[i] == p;
    IncrementSteps(t, i);
    DecrementSteps(t, i);
    var j := if i == 0 then |w| - 1 else i - 1;
    IncrementSteps(t, j);
    DecrementSteps(t, j);
  }

  /** Among the nodes of world, only the link from x to y may have been rewritten. */
  twostate predicate Rewired<T(0)>(x: Iter<T>, y: Iter<T>, world: set<Node<T>>)
    reads world
  {
    && (forall n, e :: n in world && Pos(n, e) != x ==> Next(Pos(n, e)) == old(Next(Pos(n, e))))
    && (forall n, e :: n in world && Pos(n, e) != y ==> Prior(Pos(n, e)) == old(Prior(Pos(n, e))))
  }

  /** unsafe::set_next: makes y follow x and changes no other link. */
  method SetNext<T(0)>(x: Iter<T>, y: Iter<T>, ghost world: set<Node<T>>)
    modifies x.node`leadingNext, x.node`trailingNext, y.node`leadingPrior, y.node`trailingPrior
    ensures Adjacent(x, y)
    ensures Rewired(x, y, world)
  {
    if x.leading { x.node.leadingNext := y.node; } else { x.node.trailingNext := y.node; }
    if y.leading { y.node.leadingPrior := x.node; } else { y.node.trailingPrior := x.node; }
  }

  // ---- Runs of linked positions --------------------------------------------------------

  lemma LinkedJoin<T(0)>(a: seq<Iter<T>>, b: seq<Iter<T>>)
    requires Linked(a) && Linked(b)
    requires a != [] && b != [] ==> Adjacent(a[|a| - 1], b[0])
    ensures Linked(a + b)
  {
    LinkedByIndex(a);
    LinkedByIndex(b);
    LinkedByIndex(a + b);
  }

  lemma LinkedSplit<T(0)>(a: seq<Iter<T>>, b: seq<Iter<T>>)
    requires Linked(a + b)
    ensures Linked(a) && Linked(b)
    ensures a != [] && b != [] ==> Adjacent(a[|a| - 1], b[0])
  {
    var s := a + b;
    LinkedByIndex(a);
    LinkedByIndex(b);
    LinkedByIndex(s);
    assert forall i :: 0 <= i < |a| ==> s[i] == a[i];
    assert forall i :: 0 <= i < |b| ==> s[|a| + i] == b[i];
  }

  /** The link from x to y is not one of the links inside the run s. */
  ghost predicate Avoids<T(0)>(s: seq<Iter<T>>, x: Iter<T>, y: Iter<T>) {
    && (forall i :: 0 <= i < |s| - 1 ==> s[i] != x)
    && (forall i :: 0 < i < |s| ==> s[i] != y)
  }

  /** set_next on the end of the run a and the start of the run b; other runs stay linked. */
  method Join<T(0)>(x: Iter<T>, y: Iter<T>, ghost a: seq<Iter<T>>, ghost b: seq<Iter<T>>, ghost others: seq<seq<Iter<T>>>,
                    ghost more: set<Node<T>> := {})
    requires a != [] && b != [] && x == a[|a| - 1] && y == b[0]
    requires forall r :: r in [a, b] + others ==> Linked(r) && Avoids(r, x, y)
    modifies x.node`leadingNext, x.node`trailingNext, y.node`leadingPrior, y.node`trailingPrior
    ensures Linked(a + b)
    ensures forall r :: r in others ==> Linked(r)
    ensures Rewired(x, y, more) && Adjacent(x, y)
  {
    ghost var runs: seq<seq<Iter<T>>> := [a, b] + others;
    assert runs[0] == a && runs[1] == b;
    ghost var world := more + set r, p | r in runs && p in r :: p.node;
    forall r | r in runs
      ensures AllAdjacent(r)
    {
      LinkedByIndex(r);
    }
    SetNext(x, y, world);
    forall r: seq<Iter<T>> | r in runs
      ensures Linked(r)
    {
      forall i: int, j: int | 0 <= i < |r| && 0 <= j < |r| && j == i + 1
        ensures Adjacent(r[i], r[j])
      {
        assert old(AllAdjacent(r)) && old(Adjacent(r[i], r[j]));
        assert r[i] in r && r[j] in r && r[i].node in world && r[j].node in world;
        assert r[i] == Pos(r[i].node, r[i].leading) && r[j] == Pos(r[j].node, r[j].leading);
      }
      LinkedByIndex(r);
    }
    LinkedJoin(a, b);
  }

  /** The runs a and b of one ring, cut open between them. */
  ghost predicate OpenRing<T(0)>(a: seq<Iter<T>>, b: seq<Iter<T>>)
    reads NodesOf(a), NodesOf(b)
  {
    a != [] && b != [] && Linked(a) && Linked(b) && Adjacent(b[|b| - 1], a[0])
  }

  lemma RingOpens<T(0)>(a: seq<Iter<T>>, m: seq<Iter<T>>, b: seq<Iter<T>>)
    requires a != [] && b != [] && Ring(a + m + b)
    ensures OpenRing(a, b) && Linked(m)
  {
    LinkedSplit(a + m, b);
    LinkedSplit(a, m);
    assert (a + m + b)[0] == a[0];
    assert (a + m + b)[|a + m + b| - 1] == b[|b| - 1];
  }

  /** Two set_next calls link the run seg into an open ring. */
  method LinkBetween<T(0)>(prior: Iter<T>, first: Iter<T>, back: Iter<T>, pos: Iter<T>,
                           ghost a: seq<Iter<T>>, ghost seg: seq<Iter<T>>, ghost b: seq<Iter<T>>)
    requires OpenRing(a, b) && seg != [] && Linked(seg)
    requires prior == a[|a| - 1] && first == seg[0] && back == seg[|seg| - 1] && pos == b[0]
    requires Distinct(a + seg + b)
    modifies prior.node`leadingNext, prior.node`trailingNext, first.node`leadingPrior, first.node`trailingPrior
    modifies back.node`leadingNext, back.node`trailingNext, pos.node`leadingPrior, pos.node`trailingPrior
    ensures Ring(a + seg + b)
  {
    ghost var closing := [b[|b| - 1], a[0]];
    RunsAvoid(a, seg, b);
    Join(prior, first, a, seg, [b, closing]);
    assert b in [b, closing] && closing in [b, closing];
    Join(back, pos, a + seg, b, [closing]);
    assert closing in [closing];
    assert Adjacent(closing[0], closing[1]);
  }

  /** One set_next call closes an open ring; a run that was cut out stays linked. */
  method Close<T(0)>(prior: Iter<T>, pos: Iter<T>, ghost a: seq<Iter<T>>, ghost seg: seq<Iter<T>>, ghost b: seq<Iter<T>>)
    requires OpenRing(a, b) && Linked(seg) && prior == a[|a| - 1] && pos == b[0]
    requires Distinct(a + seg + b)
    modifies prior.node`leadingNext, prior.node`trailingNext, pos.node`leadingPrior, pos.node`trailingPrior
    ensures Ring(a + b) && Linked(seg)
  {
    ghost var closing := [b[|b| - 1], a[0]];
    DistinctRuns(a, seg, b);
    DistinctByIndex(a);
    DistinctByIndex(b);
    assert Avoids(a, prior, pos) && Avoids(b, prior, pos) && Avoids(seg, prior, pos) && Avoids(closing, prior, pos);
    Join(prior, pos, a, b, [seg, closing]);
    assert closing in [seg, closing] && seg in [seg, closing];
    assert Adjacent(closing[0], closing[1]);
  }

  /** The links at the joints of three disjoint runs lie inside none of them. */
  lemma RunsAvoid<T(0)>(a: seq<Iter<T>>, m: seq<Iter<T>>, b: seq<Iter<T>>)
    requires Distinct(a + m + b) && a != [] && m != [] && b != []
    ensures var x, y := a[|a| - 1], m[0];
            Avoids(a, x, y) && Avoids(m, x, y) && Avoids(b, x, y) && Avoids([b[|b| - 1], a[0]], x, y)
    ensures var x, y := m[|m| - 1], b[0];
            Avoids(a + m, x, y) && Avoids(m, x, y) && Avoids(b, x, y) && Avoids([b[|b| - 1], a[0]], x, y)
  {
    DistinctRuns(a, m, b);
    DistinctByIndex(a);
    DistinctByIndex(m);
    DistinctByIndex(b);
  }

  lemma DistinctRuns<A>(a: seq<A>, m: seq<A>, b: seq<A>)
    requires Distinct(a + m + b)
    ensures Distinct(a) && Distinct(m) && Distinct(b)
    ensures forall i, j :: 0 <= i < |a| && 0 <= j < |m| ==> a[i] != m[j]
    ensures forall i, j :: 0 <= i < |a| && 0 <= j < |b| ==> a[i] != b[j]
    ensures forall i, j :: 0 <= i < |m| && 0 <= j < |b| ==> m[i] != b[j]
  {
    var w := a + m + b;
    DistinctByIndex(w);
    DistinctByIndex(a);
    DistinctByIndex(m);
    DistinctByIndex(b);
    assert forall i :: 0 <= i < |a| ==> w[i] == a[i];
    assert forall i :: 0 <= i < |m| ==> w[|a| + i] == m[i];
    assert forall i :: 0 <= i < |b| ==> w[|a| + |m| + i] == b[i];
  }
}
