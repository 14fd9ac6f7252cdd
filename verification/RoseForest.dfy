/**
 * Rose forests and the words their full-order traversal spells.
 *
 * A forest visits every node twice: on its leading edge before the children and on its
 * trailing edge after them.  `Words` spells that visit as a sequence of positions.  All
 * forest operations are stated with one function, `PlugTree`, which puts a list of trees in
 * front of the k-th position of such a word.
 */
module RoseForest {

  datatype Tree<N> = Tree(node: N, children: seq<Tree<N>>)

  /** A position of the full-order traversal: a node and the edge it is visited on. */
  datatype Pos<N> = Pos(node: N, leading: bool) {
    function Pivot(): Pos<N> { Pos(node, !leading) }
  }

  function Word<N>(t: Tree<N>): (w: seq<Pos<N>>)
    ensures |w| >= 2
    ensures w[0] == Pos(t.node, true) && w[|w| - 1] == Pos(t.node, false)
  {
    [Pos(t.node, true)] + Words(t.children) + [Pos(t.node, false)]
  }

  function Words<N>(ts: seq<Tree<N>>): seq<Pos<N>> {
    if ts == [] then [] else Word(ts[0]) + Words(ts[1..])
  }

  /** Puts the trees `fs` in front of position k of the word of `ts`. */
  function PlugForest<N>(ts: seq<Tree<N>>, k: nat, fs: seq<Tree<N>>): seq<Tree<N>>
    requires k <= |Words(ts)|
    decreases ts, 0
  {
    if k == 0 then fs + ts
    else if k < |Word(ts[0])| then [PlugTree(ts[0], k, fs)] + ts[1..]
    else [ts[0]] + PlugForest(ts[1..], k - |Word(ts[0])|, fs)
  }

  function PlugTree<N>(t: Tree<N>, k: nat, fs: seq<Tree<N>>): (r: Tree<N>)
    requires 1 <= k < |Word(t)|
    ensures r.node == t.node
    decreases t, 1
  {
    Tree(t.node, PlugForest(t.children, k - 1, fs))
  }

  lemma {:induction false} WordsConcat<N>(ts: seq<Tree<N>>, us: seq<Tree<N>>)
    ensures Words(ts + us) == Words(ts) + Words(us)
  {
    if ts == [] {
      assert ts + us == us;
    } else {
      assert (ts + us)[0] == ts[0] && (ts + us)[1..] == ts[1..] + us;
      WordsConcat(ts[1..], us);
    }
  }

  lemma WordsSingle<N>(t: Tree<N>)
    ensures Words([t]) == Word(t)
  {
    assert [t][1..] == [];
  }

  /** The sequence s with t put in front of index k. */
  function InsertAt<A>(s: seq<A>, k: nat, t: seq<A>): seq<A>
    requires k <= |s|
  {
    s[..k] + t + s[k..]
  }

  lemma InsertAtLeft<A>(a: seq<A>, b: seq<A>, k: nat, t: seq<A>)
    requires k <= |a|
    ensures InsertAt(a + b, k, t) == InsertAt(a, k, t) + b
  {
    assert (a + b)[..k] == a[..k];
    assert (a + b)[k..] == a[k..] + b;
  }

  lemma InsertAtRight<A>(a: seq<A>, b: seq<A>, k: nat, t: seq<A>)
    requires |a| <= k <= |a| + |b|
    ensures InsertAt(a + b, k, t) == a + InsertAt(b, k - |a|, t)
  {
    assert (a + b)[..k] == a + b[..k - |a|];
    assert (a + b)[k..] == b[k - |a|..];
  }

  /** Plugging inserts the word of `fs` at k and moves nothing else. */
  lemma {:induction false} PlugForestWord<N>(ts: seq<Tree<N>>, k: nat, fs: seq<Tree<N>>)
    requires k <= |Words(ts)|
    ensures Words(PlugForest(ts, k, fs)) == InsertAt(Words(ts), k, Words(fs))
    decreases ts, 0
  {
    if k == 0 {
      WordsConcat(fs, ts);
    } else {
      var first, rest := ts[0], ts[1..];
      if k < |Word(first)| {
        PlugTreeWord(first, k, fs);
        WordsCons(PlugTree(first, k, fs), rest);
        InsertAtLeft(Word(first), Words(rest), k, Words(fs));
      } else {
        PlugForestWord(rest, k - |Word(first)|, fs);
        WordsCons(first, PlugForest(rest, k - |Word(first)|, fs));
        InsertAtRight(Word(first), Words(rest), k, Words(fs));
      }
    }
  }

  lemma WordsCons<N>(t: Tree<N>, ts: seq<Tree<N>>)
    ensures Words([t] + ts) == Word(t) + Words(ts)
  {
    assert ([t] + ts)[1..] == ts;
  }

  lemma {:induction false} PlugTreeWord<N>(t: Tree<N>, k: nat, fs: seq<Tree<N>>)
    requires 1 <= k < |Word(t)|
    ensures Word(PlugTree(t, k, fs)) == InsertAt(Word(t), k, Words(fs))
    decreases t, 1
  {
    PlugForestWord(t.children, k - 1, fs);
    var open, inner, close := [Pos(t.node, true)], Words(t.children), [Pos(t.node, false)];
    InsertAtLeft(open + inner, close, k, Words(fs));
    InsertAtRight(open, inner, k, Words(fs));
  }

  /**
   * A forest is determined by its word: two forests whose words agree up to continuations
   * that do not start with a leading edge are equal.
   */
  lemma {:induction false} WordsDetermine<N>(ts: seq<Tree<N>>, us: seq<Tree<N>>, s: seq<Pos<N>>, r: seq<Pos<N>>)
    requires Words(ts) + s == Words(us) + r
    requires s == [] || !s[0].leading
    requires r == [] || !r[0].leading
    ensures ts == us && s == r
    decreases ts
  {
    assert ts == [] ==> Words(ts) + s == s;
    assert us == [] ==> Words(us) + r == r;
    StartsLeading(ts, s);
    StartsLeading(us, r);
    if ts != [] && us != [] {
      var s' := Unwrap(ts, s);
      var r' := Unwrap(us, r);
      WordsDetermine(ts[0].children, us[0].children, s', r');
      assert Words(ts[1..]) + s == s'[1..];
      assert Words(us[1..]) + r == r'[1..];
      WordsDetermine(ts[1..], us[1..], s, r);
    }
  }

  lemma StartsLeading<N>(ts: seq<Tree<N>>, s: seq<Pos<N>>)
    ensures ts != [] ==> Words(ts) + s != [] && (Words(ts) + s)[0] == Pos(ts[0].node, true)
  {
    if ts != [] { assert (Words(ts) + s)[0] == Word(ts[0])[0]; }
  }

  /** What follows the children of the first tree in the word of a forest. */
  lemma Unwrap<N>(ts: seq<Tree<N>>, s: seq<Pos<N>>) returns (rest: seq<Pos<N>>)
    requires ts != []
    ensures rest == [Pos(ts[0].node, false)] + (Words(ts[1..]) + s)
    ensures (Words(ts) + s)[1..] == Words(ts[0].children) + rest
  {
    rest := [Pos(ts[0].node, false)] + (Words(ts[1..]) + s);
    Peel(Pos(ts[0].node, true), Words(ts[0].children), [Pos(ts[0].node, false)], Words(ts[1..]), s);
  }

  lemma Peel<A>(x: A, a: seq<A>, b: seq<A>, c: seq<A>, d: seq<A>)
    ensures (([x] + a + b) + c + d)[1..] == a + (b + (c + d))
  {
  }

  lemma WordDetermines<N>(t: Tree<N>, u: Tree<N>)
    requires Word(t) == Word(u)
    ensures t == u
  {
    WordsSingle(t);
    WordsSingle(u);
    WordsDetermine([t], [u], [], []);
  }

  /** The subtree whose leading edge is position i. */
  function SubtreeAt<N>(ts: seq<Tree<N>>, i: nat): (r: Tree<N>)
    requires i < |Words(ts)| && Words(ts)[i].leading
    ensures r.node == Words(ts)[i].node
    decreases ts
  {
    var m := |Word(ts[0])|;
    if i == 0 then ts[0]
    else if i < m then
      assert Words(ts)[i] == Word(ts[0])[i] == Words(ts[0].children)[i - 1];
      SubtreeAt(ts[0].children, i - 1)
    else SubtreeAt(ts[1..], i - m)
  }

  /** The forest without the subtree whose leading edge is position i. */
  function Without<N>(ts: seq<Tree<N>>, i: nat): seq<Tree<N>>
    requires i < |Words(ts)| && Words(ts)[i].leading
    decreases ts
  {
    var m := |Word(ts[0])|;
    if i == 0 then ts[1..]
    else if i < m then
      assert Words(ts)[i] == Word(ts[0])[i] == Words(ts[0].children)[i - 1];
      [Tree(ts[0].node, Without(ts[0].children, i - 1))] + ts[1..]
    else [ts[0]] + Without(ts[1..], i - m)
  }

  lemma PlugsBelow<N>(t: Tree<N>, rest: seq<Tree<N>>, k: nat, u: Tree<N>)
    requires k <= |Words(rest)| && PlugForest(rest, k, [u]) == t.children
    ensures k + 1 < |Word(Tree(t.node, rest))| && PlugTree(Tree(t.node, rest), k + 1, [u]) == t
  {
    hide PlugForest, Words;
  }

  lemma PlugsFirst<N>(out: seq<Tree<N>>, ts: seq<Tree<N>>, k: nat, u: Tree<N>)
    requires out != [] && ts != [] && out[1..] == ts[1..]
    requires 0 < k < |Word(out[0])| && PlugTree(out[0], k, [u]) == ts[0]
    ensures k <= |Words(out)| && PlugForest(out, k, [u]) == ts
  {
    hide PlugTree, Word;
    assert [ts[0]] + ts[1..] == ts;
  }

  lemma InnerSubtree<N>(ts: seq<Tree<N>>, i: nat)
    requires i < |Words(ts)| && Words(ts)[i].leading && 0 < i < |Word(ts[0])|
    ensures i - 1 < |Words(ts[0].children)| && Words(ts[0].children)[i - 1].leading
    ensures SubtreeAt(ts, i) == SubtreeAt(ts[0].children, i - 1)
    ensures Without(ts, i) == [Tree(ts[0].node, Without(ts[0].children, i - 1))] + ts[1..]
  {
    assert Words(ts)[i] == Word(ts[0])[i] == Words(ts[0].children)[i - 1];
  }

  lemma LaterSubtree<N>(ts: seq<Tree<N>>, i: nat)
    requires i < |Words(ts)| && Words(ts)[i].leading && 0 < i && |Word(ts[0])| <= i
    ensures i - |Word(ts[0])| < |Words(ts[1..])| && Words(ts[1..])[i - |Word(ts[0])|].leading
    ensures SubtreeAt(ts, i) == SubtreeAt(ts[1..], i - |Word(ts[0])|)
    ensures Without(ts, i) == [ts[0]] + Without(ts[1..], i - |Word(ts[0])|)
  {
  }

  lemma PlugsLater<N>(out: seq<Tree<N>>, ts: seq<Tree<N>>, k: nat, u: Tree<N>)
    requires out != [] && ts != [] && out[0] == ts[0] && 0 < |Word(ts[0])| <= k && k - |Word(ts[0])| <= |Words(out[1..])|
    requires PlugForest(out[1..], k - |Word(ts[0])|, [u]) == ts[1..]
    ensures k <= |Words(out)| && PlugForest(out, k, [u]) == ts
  {
    hide PlugTree, Word;
    assert [ts[0]] + ts[1..] == ts;
  }

  lemma FirstSubtree<N>(ts: seq<Tree<N>>)
    requires Words(ts) != []
    ensures ts != [] && |Word(ts[0])| > 0
    ensures Words(ts)[0].leading ==> PlugForest(Without(ts, 0), 0, [SubtreeAt(ts, 0)]) == ts
  {
    assert [ts[0]] + ts[1..] == ts;
  }

  /** Every subtree can be taken out and plugged back in. */
  lemma {:induction false} SubtreePlugs<N>(ts: seq<Tree<N>>, i: nat)
    requires i < |Words(ts)| && Words(ts)[i].leading
    ensures i <= |Words(Without(ts, i))|
    ensures PlugForest(Without(ts, i), i, [SubtreeAt(ts, i)]) == ts
    decreases ts
  {
    hide Word, Words, SubtreeAt, Without, PlugForest, PlugTree;
    FirstSubtree(ts);
    var m := |Word(ts[0])|;
    if 0 < i < m {
      InnerSubtree(ts, i);
      SubtreePlugs(ts[0].children, i - 1);
      PlugsBelow(ts[0], Without(ts[0].children, i - 1), i - 1, SubtreeAt(ts, i));
      PlugsFirst(Without(ts, i), ts, i, SubtreeAt(ts, i));
    } else if m <= i {
      LaterSubtree(ts, i);
      SubtreePlugs(ts[1..], i - m);
      PlugsLater(Without(ts, i), ts, i, SubtreeAt(ts, i));
    }
  }

  /** The number of nodes. */
  function Count<N>(ts: seq<Tree<N>>): nat {
    if ts == [] then 0 else 1 + Count(ts[0].children) + Count(ts[1..])
  }

  lemma {:induction false} TwoPositionsPerNode<N>(ts: seq<Tree<N>>)
    ensures |Words(ts)| == 2 * Count(ts)
  {
    if ts != [] {
      TwoPositionsPerNode(ts[0].children);
      TwoPositionsPerNode(ts[1..]);
    }
  }

  // ---- Nesting ------------------------------------------------------------------------

  ghost predicate Distinct<A>(s: seq<A>) {
    forall x {:trigger multiset(s)[x]} :: x in s ==> multiset(s)[x] == 1
  }

  lemma {:induction false} DistinctByIndex<A>(s: seq<A>)
    ensures Distinct(s) <==> forall i, j :: 0 <= i < j < |s| ==> s[i] != s[j]
  {
    if s != [] {
      var last, rest := s[|s| - 1], s[..|s| - 1];
      assert s == rest + [last];
      DistinctByIndex(rest);
      assert multiset(s) == multiset(rest) + multiset{last};
      if Distinct(s) {
        assert multiset(s)[last] == 1;
        assert forall x :: x in rest ==> x in s && multiset(s)[x] == 1;
      }
      if forall i, j :: 0 <= i < j < |s| ==> s[i] != s[j] {
        assert last !in rest;
        assert forall x :: x in s ==> x == last || x in rest;
      }
    }
  }

  /** The first index of x in s. */
  ghost function Find<A>(s: seq<A>, x: A): (i: nat)
    requires x in s
    ensures i < |s| && s[i] == x
  {
    if s[0] == x then 0 else 1 + Find(s[1..], x)
  }

  lemma FindDistinct<A>(s: seq<A>, i: nat)
    requires Distinct(s) && i < |s|
    ensures s[i] in s && Find(s, s[i]) == i
  {
    DistinctByIndex(s);
  }

  /** A forest visits every node on both edges. */
  lemma {:induction false} BothEdges<N>(ts: seq<Tree<N>>, p: Pos<N>)
    requires p in Words(ts)
    ensures p.Pivot() in Words(ts)
    decreases ts
  {
    var t := ts[0];
    if p in Word(t) {
      if p in Words(t.children) { BothEdges(t.children, p); }
    } else {
      BothEdges(ts[1..], p);
    }
  }

  /**
   * The edges of a node enclose a run of the word that contains both edges of every node
   * it touches.
   */
  lemma {:induction false} Enclosed<N>(t: Tree<N>, i: nat) returns (j: nat)
    requires i < |Word(t)| && Word(t)[i].leading
    ensures i < j < |Word(t)| && Word(t)[j] == Word(t)[i].Pivot()
    ensures forall k :: i <= k <= j ==> Word(t)[k].Pivot() in Word(t)[i..j + 1]
    ensures j == i + 1 || Word(t)[i + 1].leading
    ensures i == 0 ==> j == |Word(t)| - 1
  {
    hide Word, Words, SubtreeAt, Without;
    var s, a, b := SubtreeRun(t, i);
    j := Encloses(Word(t), a, s, b);
  }

  lemma Encloses<N>(w: seq<Pos<N>>, a: seq<Pos<N>>, s: Tree<N>, b: seq<Pos<N>>) returns (j: nat)
    requires w == a + Word(s) + b
    ensures |a| < j < |w| && w[j] == w[|a|].Pivot() && w[|a|].leading
    ensures forall k :: |a| <= k <= j ==> w[k].Pivot() in w[|a|..j + 1]
    ensures j == |a| + 1 || w[|a| + 1].leading
    ensures b == [] ==> j == |w| - 1
  {
    hide Word, Words, Paired;
    j := |a| + |Word(s)| - 1;
    PivotsInside(s);
    RunInside(w, a, Word(s), b);
    SecondPosition(s);
  }

  lemma RunInside<N>(w: seq<Pos<N>>, a: seq<Pos<N>>, x: seq<Pos<N>>, b: seq<Pos<N>>)
    requires w == a + x + b && |x| >= 2 && Paired(x)
    ensures w[|a|] == x[0] && w[|a| + 1] == x[1] && w[|a| + |x| - 1] == x[|x| - 1] && w[|a|..|a| + |x|] == x
    ensures forall k :: |a| <= k < |a| + |x| ==> w[k].Pivot() in w[|a|..|a| + |x|]
  {
    forall k | |a| <= k < |a| + |x| ensures w[k].Pivot() in x { assert w[k] == x[k - |a|]; }
    assert w[|a|..|a| + |x|] == x;
  }

  /** Behind the leading edge of a tree stands its first child, or its trailing edge. */
  lemma SecondPosition<N>(s: Tree<N>)
    ensures |Word(s)| == 2 || Word(s)[1].leading
  {
    StartsLeading(s.children, [Pos(s.node, false)]);
    assert Word(s)[1] == (Words(s.children) + [Pos(s.node, false)])[0];
  }

  /** A run that holds both edges of its nodes. */
  ghost predicate Paired<N>(x: seq<Pos<N>>) { forall k :: 0 <= k < |x| ==> x[k].Pivot() in x }

  lemma PivotsInside<N>(s: Tree<N>)
    ensures Paired(Word(s))
  {
    hide Words;
    WordsSingle(s);
    forall k | 0 <= k < |Word(s)| ensures Word(s)[k].Pivot() in Word(s) { BothEdges([s], Word(s)[k]); }
  }

  /** Where the word of a subtree stands in the word of the tree. */
  lemma SubtreeRun<N>(t: Tree<N>, i: nat) returns (s: Tree<N>, a: seq<Pos<N>>, b: seq<Pos<N>>)
    requires i < |Word(t)| && Word(t)[i].leading
    ensures |a| == i && Word(t) == a + Word(s) + b
    ensures s.node == Word(t)[i].node
    ensures i == 0 ==> b == []
    ensures i > 0 ==> i - 1 < |Words(t.children)| && Words(t.children)[i - 1] == Word(t)[i] && s == SubtreeAt(t.children, i - 1)
    ensures i > 0 ==> a + b == Word(Tree(t.node, Without(t.children, i - 1)))
  {
    hide Words, SubtreeAt, Without, PlugForest;
    if i == 0 {
      s, a, b := t, [], [];
    } else {
      assert Word(t)[i] == Words(t.children)[i - 1];
      s := SubtreeAt(t.children, i - 1);
      SubtreePlugs(t.children, i - 1);
      var rest := Tree(t.node, Without(t.children, i - 1));
      assert PlugTree(rest, i, [s]) == t;
      PlugTreeWord(rest, i, [s]);
      WordsSingle(s);
      a, b := Word(rest)[..i], Word(rest)[i..];
    }
  }

  /** After a leading edge comes a first child, or the node's own trailing edge. */
  lemma LeafStep<N>(t: Tree<N>, i: nat)
    requires i + 1 < |Word(t)| && Word(t)[i].leading && !Word(t)[i + 1].leading
    ensures Word(t)[i + 1].node == Word(t)[i].node
  {
    var j := Enclosed(t, i);
  }

  /** A node that closes just before its parent does not stand in front of the parent. */
  lemma LastChildNotBefore<N>(t: Tree<N>, i: nat, j: nat)
    requires Distinct(Word(t))
    requires i + 1 < |Word(t)| && !Word(t)[i].leading && !Word(t)[i + 1].leading
    requires 0 < j < |Word(t)| && Word(t)[j] == Word(t)[i + 1].Pivot()
    ensures Word(t)[j - 1].node != Word(t)[i].node
  {
    var w := Word(t);
    DistinctByIndex(w);
    var e := Enclosed(t, j);
    assert e == i + 1;
    OutsideRun(w, j, e, i, j - 1);
  }

  /** A first child does not stand behind its parent. */
  lemma FirstChildNotAfter<N>(t: Tree<N>, i: nat, j: nat)
    requires Distinct(Word(t))
    requires i + 1 < |Word(t)| && Word(t)[i].leading && Word(t)[i + 1].leading
    requires j + 1 < |Word(t)| && Word(t)[j] == Word(t)[i].Pivot()
    ensures Word(t)[j + 1].node != Word(t)[i + 1].node
  {
    var w := Word(t);
    DistinctByIndex(w);
    var e := Enclosed(t, i);
    assert e == j;
    OutsideRun(w, i, e, i + 1, j + 1);
  }

  /** A run that holds both edges of its nodes shares no node with a position outside. */
  lemma OutsideRun<N>(w: seq<Pos<N>>, i: nat, j: nat, inside: nat, outside: nat)
    requires Distinct(w) && i <= inside <= j < |w|
    requires w[inside].Pivot() in w[i..j + 1]
    requires outside < |w| && !(i <= outside <= j)
    ensures w[outside].node != w[inside].node
  {
    DistinctByIndex(w);
    var k :| 0 <= k < j + 1 - i && w[i..j + 1][k] == w[inside].Pivot();
    assert w[i + k] == w[inside].Pivot();
    assert w[outside] != w[inside] && w[outside] != w[i + k];
  }
}
