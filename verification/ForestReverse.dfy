/**
 * forest::reverse and the node algorithm it uses, unsafe::reverse_append.
 */
module ForestReverse {
  import opened RoseForest
  import opened ForestLinks
  import opened Forests

  ghost function Reversed<A>(s: seq<A>): seq<A> {
    if s == [] then [] else [s[|s| - 1]] + Reversed(s[..|s| - 1])
  }

  lemma {:induction false} ReversedWord<N>(ts: seq<Tree<N>>)
    ensures multiset(Words(Reversed(ts))) == multiset(Words(ts))
    ensures Count(Reversed(ts)) == Count(ts)
  {
    if ts != [] {
      var last, rest := ts[|ts| - 1], ts[..|ts| - 1];
      assert ts == rest + [last];
      ReversedWord(rest);
      WordsConcat(rest, [last]);
      WordsConcat([last], Reversed(rest));
      assert multiset(Words(ts)) == multiset(Words(rest)) + multiset(Words([last]));
    }
    TwoPositionsPerNode(ts);
    TwoPositionsPerNode(Reversed(ts));
    assert |multiset(Words(ts))| == |Words(ts)|;
    assert |multiset(Words(Reversed(ts)))| == |Words(Reversed(ts))|;
  }

  /** The siblings still to be relinked after m rounds. */
  ghost function Todo<N>(fs: seq<Tree<N>>, m: nat): seq<Pos<N>>
    requires m <= |fs|
  {
    Words(fs[m..])
  }

  /** The run that starts with the siblings relinked in the first m rounds. */
  ghost function Done<N>(b: seq<Pos<N>>, fs: seq<Tree<N>>, m: nat): seq<Pos<N>>
    requires m <= |fs|
  {
    Words(Reversed(fs[..m])) + b
  }

  lemma RunSteps<N>(b: seq<Pos<N>>, fs: seq<Tree<N>>, m: nat)
    requires m < |fs|
    ensures Todo(fs, m) == Word(fs[m]) + Todo(fs, m + 1)
    ensures Done(b, fs, m + 1) == Word(fs[m]) + Done(b, fs, m)
  {
    assert fs[m..][0] == fs[m] && fs[m..][1..] == fs[m + 1..];
    assert fs[..m + 1][..m] == fs[..m];
    WordsCons(fs[m], Reversed(fs[..m]));
  }

  lemma RunHeads<N>(b: seq<Pos<N>>, fs: seq<Tree<N>>, m: nat)
    requires m <= |fs| && b != []
    ensures if m < |fs| then Todo(fs, m) != [] && Todo(fs, m)[0] == Pos(fs[m].node, true) else Todo(fs, m) == []
    ensures Done(b, fs, m) != [] && Done(b, fs, m)[0] == if m == 0 then b[0] else Pos(fs[m - 1].node, true)
  {
    if m < |fs| { RunSteps(b, fs, m); }
    if m > 0 { RunSteps(b, fs, m - 1); }
  }

  lemma RoundDistinct<N>(a: seq<Pos<N>>, b: seq<Pos<N>>, fs: seq<Tree<N>>, m: nat)
    requires m <= |fs| && Distinct(a + Words(fs) + b)
    ensures Distinct(a + Todo(fs, m) + Done(b, fs, m))
  {
    hide Words, Distinct, Reversed;
    assert fs == fs[..m] + fs[m..];
    WordsConcat(fs[..m], fs[m..]);
    ReversedWord(fs[..m]);
    var done, todo, back := Words(fs[..m]), Words(fs[m..]), Words(Reversed(fs[..m]));
    assert multiset(a + todo + (back + b)) == multiset(a) + multiset(todo) + multiset(back) + multiset(b);
    assert multiset(a + (done + todo) + b) == multiset(a) + multiset(done) + multiset(todo) + multiset(b);
    DistinctByMultiset(a + Words(fs) + b, a + Todo(fs, m) + Done(b, fs, m));
  }

  lemma DistinctByMultiset<A>(s: seq<A>, r: seq<A>)
    requires multiset(s) == multiset(r) && Distinct(s)
    ensures Distinct(r)
  {
    assert forall p :: p in r <==> p in multiset(r);
    assert forall p :: p in s <==> p in multiset(s);
  }

  /** Siblings are different nodes, and none of them is the node of a position around them. */
  lemma SiblingsApart<N>(a: seq<Pos<N>>, b: seq<Pos<N>>, fs: seq<Tree<N>>)
    requires Distinct(a + Words(fs) + b)
    ensures forall i, j :: 0 <= i < j < |fs| ==> fs[i].node != fs[j].node
    ensures forall i, p :: 0 <= i < |fs| && (p in a || p in b) ==> fs[i].node != p.node
  {
    hide Words, Distinct;
    DistinctRuns(a, Words(fs), b);
    forall i, j | 0 <= i < j < |fs|
      ensures fs[i].node != fs[j].node
    {
      SiblingsDiffer(fs, i, j);
    }
    forall i, p | 0 <= i < |fs| && (p in a || p in b)
      ensures fs[i].node != p.node
    {
      SiblingEdges(fs, i);
    }
  }

  lemma SiblingsDiffer<N>(fs: seq<Tree<N>>, i: nat, j: nat)
    requires i < j < |fs| && Distinct(Words(fs))
    ensures fs[i].node != fs[j].node
  {
    var k, l := SiblingOrder(fs, i, j);
    DistinctByIndex(Words(fs));
  }

  lemma SiblingEdges<N>(fs: seq<Tree<N>>, i: nat)
    requires i < |fs|
    ensures Pos(fs[i].node, true) in Words(fs) && Pos(fs[i].node, false) in Words(fs)
  {
    hide Words, Word;
    var w := Word(fs[i]);
    assert fs == fs[..i] + fs[i..] && fs[i..] == [fs[i]] + fs[i + 1..];
    WordsConcat(fs[..i], fs[i..]);
    WordsCons(fs[i], fs[i + 1..]);
    assert w[0] in w && w[|w| - 1] in w;
  }

  lemma SiblingOrder<N>(fs: seq<Tree<N>>, i: nat, j: nat) returns (k: nat, l: nat)
    requires i < j < |fs|
    ensures k < l < |Words(fs)| && Words(fs)[k] == Pos(fs[i].node, true) && Words(fs)[l] == Pos(fs[j].node, true)
  {
    assert fs == fs[..j] + fs[j..];
    WordsConcat(fs[..j], fs[j..]);
    SiblingEdges(fs[..j], i);
    k :| 0 <= k < |Words(fs[..j])| && Words(fs[..j])[k] == Pos(fs[i].node, true);
    l := |Words(fs[..j])|;
    RunHeads([Pos(fs[j].node, true)], fs, j);
  }

  /**
   * The links while reverse_append runs: a stands in front of the siblings fs, b behind
   * them, and the first m siblings have been relinked in front of b in reverse order.
   */
  ghost predicate Reversing<T(0)>(a: seq<Iter<T>>, b: seq<Iter<T>>, fs: seq<Tree<Node<T>>>, m: nat)
    requires a != [] && b != [] && m <= |fs|
    reads NodesOf(a), NodesOf(b), NodesOf(Todo(fs, m)), NodesOf(Done(b, fs, m)), a[0].node, b[0].node, b[|b| - 1].node
    reads if fs == [] then {} else {fs[|fs| - 1].node}
  {
    && Linked(a) && Linked(Todo(fs, m)) && Linked(Done(b, fs, m))
    && Adjacent(b[|b| - 1], a[0])
    && (m < |fs| ==> Next(Pos(fs[|fs| - 1].node, false)) == b[0].node)
    && (fs != [] && !b[0].leading ==> b[0].node.leadingPrior != fs[|fs| - 1].node)
    && (fs != [] && b[0].leading ==> b[0].node.leadingPrior == fs[if m == 0 then |fs| - 1 else 0].node)
  }

  /** Where the walk over the siblings stands after m of them. */
  ghost function Cursor<N>(b: seq<Pos<N>>, fs: seq<Tree<N>>, m: nat): Pos<N>
    requires b != [] && m <= |fs|
  {
    if m < |fs| then Pos(fs[m].node, true) else if b[0].leading && |fs| > 1 then b[0].Pivot() else b[0]
  }

  lemma CursorStep<T(0)>(a: seq<Iter<T>>, b: seq<Iter<T>>, fs: seq<Tree<Node<T>>>, m: nat)
    requires a != [] && b != [] && m < |fs| && Distinct(a + Words(fs) + b)
    requires Reversing(a, b, fs, m)
    ensures Increment(Pos(fs[m].node, false)) == Cursor(b, fs, m + 1)
  {
    hide Words, Word, Distinct;
    SiblingsApart(a, b, fs);
    RunSteps(b, fs, m);
    RunHeads(b, fs, m + 1);
    LinkedSplit(Word(fs[m]), Todo(fs, m + 1));
  }

  /** One round of reverse_append. */
  method ReverseRound<T(0)>(first: Iter<T>, result: Iter<T>,
                            ghost a: seq<Iter<T>>, ghost b: seq<Iter<T>>, ghost fs: seq<Tree<Node<T>>>, ghost m: nat)
    returns (first': Iter<T>, result': Iter<T>)
    requires a != [] && b != [] && m < |fs| && Distinct(a + Words(fs) + b)
    requires Reversing(a, b, fs, m) && first == Pos(fs[m].node, true)
    requires result == Done(b, fs, m)[0]
    modifies first.node`leadingNext, first.node`trailingNext, result.node`leadingPrior, result.node`trailingPrior
    ensures Reversing(a, b, fs, m + 1) && first' == Cursor(b, fs, m + 1) && result' == first
  {
    hide Words, Word, Distinct, Linked, Done, Todo;
    CursorStep(a, b, fs, m);
    var prior := first;
    first' := Increment(prior.Pivot());
    RunSteps(b, fs, m);
    RunHeads(b, fs, m);
    SiblingsApart(a, b, fs);
    LinkedSplit(Word(fs[m]), Todo(fs, m + 1));
    ghost var closing := [b[|b| - 1], a[0]];
    RoundAvoids(a, b, fs, m);
    LinkedByIndex(closing);
    ghost var others := [a, Todo(fs, m + 1), closing];
    ghost var behind, lastEdge := Pos(b[0].node, true), Pos(fs[|fs| - 1].node, false);
    assert Prior(behind) == b[0].node.leadingPrior;
    Join(prior.Pivot(), result, Word(fs[m]), Done(b, fs, m), others, {lastEdge.node, behind.node});
    assert others[0] == a && others[1] == Todo(fs, m + 1) && others[2] == closing;
    LinkedByIndex(closing);
    assert Adjacent(closing[0], closing[1]);
    assert Prior(behind) == b[0].node.leadingPrior;
    assert b[0] in b;
    result' := prior;
  }

  lemma RoundAvoids<T(0)>(a: seq<Iter<T>>, b: seq<Iter<T>>, fs: seq<Tree<Node<T>>>, m: nat)
    requires a != [] && b != [] && m < |fs| && Distinct(a + Words(fs) + b)
    ensures var x, y := Pos(fs[m].node, false), Done(b, fs, m)[0];
      && Avoids(a, x, y) && Avoids(Word(fs[m]), x, y) && Avoids(Todo(fs, m + 1), x, y)
      && Avoids(Done(b, fs, m), x, y) && Avoids([b[|b| - 1], a[0]], x, y)
  {
    hide Words, Word, Todo, Done, Distinct;
    RoundDistinct(a, b, fs, m);
    RunSteps(b, fs, m);
    RunHeads(b, fs, m);
    var first, rest, done := Word(fs[m]), Todo(fs, m + 1), Done(b, fs, m);
    DoneEnds(b, fs, m);
    DistinctRuns(a, first + rest, done);
    assert first + rest == first + rest + [];
    DistinctRuns(first, rest, []);
    DistinctByIndex(first);
    DistinctByIndex(done);
    assert forall i :: 0 <= i < |first| ==> (first + rest)[i] == first[i];
    assert forall i :: 0 <= i < |rest| ==> (first + rest)[|first| + i] == rest[i];
    assert first[|first| - 1] == Pos(fs[m].node, false);
  }

  lemma DoneEnds<N>(b: seq<Pos<N>>, fs: seq<Tree<N>>, m: nat)
    requires b != [] && m <= |fs|
    ensures Done(b, fs, m) != [] && Done(b, fs, m)[|Done(b, fs, m)| - 1] == b[|b| - 1]
  {
  }

  lemma ReverseStarts<T(0)>(t: Tree<Node<T>>, c: Tree<Node<T>>, i: nat, fs: seq<Tree<Node<T>>>)
    requires 0 < i < |Word(c)| && Word(t) == InsertAt(Word(c), i, Words(fs)) && Distinct(Word(t)) && Ring(Word(t))
    ensures Reversing(Word(c)[..i], Word(c)[i..], fs, 0)
    ensures i + |Words(fs)| < |Word(t)| && Word(t)[i] == Cursor(Word(c)[i..], fs, 0)
    ensures Word(t)[i + |Words(fs)|] == Word(c)[i] == Done(Word(c)[i..], fs, 0)[0]
    ensures Decrement(Word(t)[i]) == Word(c)[i - 1]
  {
    hide Word, Words, Distinct, Linked, Todo, Done, InsertAt;
    var w, m := Word(c), Words(fs);
    InsertedEnds(w, i, m);
    DoneNothing(w[i..], fs);
    RunHeads(w[i..], fs, 0);
    RingOpens(w[..i], m, w[i..]);
    DecrementSteps(t, i - 1);
    if fs != [] {
      LastSibling(fs);
      IncrementSteps(t, i + |m| - 1);
    }
  }

  lemma InsertedEnds<A>(w: seq<A>, i: nat, m: seq<A>)
    requires 0 < i < |w|
    ensures var r := InsertAt(w, i, m);
      && r == w[..i] + m + w[i..] && |r| == |w| + |m|
      && r[i - 1] == w[i - 1] && r[i + |m|] == w[i]
      && (m != [] ==> r[i] == m[0] && r[i + |m| - 1] == m[|m| - 1])
  {
  }

  lemma DoneNothing<N>(b: seq<Pos<N>>, fs: seq<Tree<N>>)
    ensures Done(b, fs, 0) == b && Todo(fs, 0) == Words(fs)
  {
    assert fs[..0] == [] && fs[0..] == fs;
  }

  lemma LastSibling<N>(fs: seq<Tree<N>>)
    requires fs != []
    ensures Words(fs) != [] && Words(fs)[|Words(fs)| - 1] == Pos(fs[|fs| - 1].node, false)
  {
    var rest, last := fs[..|fs| - 1], fs[|fs| - 1];
    assert fs == rest + [last];
    WordsConcat(rest, [last]);
    WordsSingle(last);
  }

  /** reverse_append(first, last, last), for the ranges on which it stops. */
  method ReverseAppend<T(0)>(first: Iter<T>, last: Iter<T>,
                             ghost a: seq<Iter<T>>, ghost b: seq<Iter<T>>, ghost fs: seq<Tree<Node<T>>>)
    returns (result: Iter<T>)
    requires a != [] && b != [] && Distinct(a + Words(fs) + b)
    requires Reversing(a, b, fs, 0) && first == Cursor(b, fs, 0) && last == b[0]
    requires !last.leading || |fs| <= 1
    modifies NodesOf(Words(fs) + b)`leadingNext, NodesOf(Words(fs) + b)`leadingPrior
    modifies NodesOf(Words(fs) + b)`trailingNext, NodesOf(Words(fs) + b)`trailingPrior
    ensures Reversing(a, b, fs, |fs|) && result == Done(b, fs, |fs|)[0]
    ensures result.node in NodesOf(Words(fs) + b)
  {
    hide Words, Distinct, Reversing, Done, Todo;
    var walk := first;
    result := last;
    ghost var m := 0;
    RunHeads(b, fs, 0);
    SiblingsApart(a, b, fs);
    while walk != last
      invariant m <= |fs| && Reversing(a, b, fs, m) && walk == Cursor(b, fs, m)
      invariant Done(b, fs, m) != [] && result == Done(b, fs, m)[0] && result.node in NodesOf(Words(fs) + b)
      decreases |fs| - m
    {
      SiblingEdges(fs, m);
      RunHeads(b, fs, m + 1);
      walk, result := ReverseRound(walk, result, a, b, fs, m);
      m := m + 1;
    }
    assert b[0] in b;
  }

  /** forest::reverse(first, last): the siblings fs in [first, last) stand in reverse order. */
  method Reverse<T(0)>(f: Forest<T>, first: Iter<T>, last: Iter<T>,
                       ghost c: Tree<Node<T>>, ghost i: nat, ghost fs: seq<Tree<Node<T>>>)
    requires f.Valid() && 0 < i < |Word(c)| && f.root == PlugTree(c, i, fs)
    requires i + |Words(fs)| < |f.ring| && first == f.ring[i] && last == f.ring[i + |Words(fs)|]
    requires !last.leading || |fs| <= 1
    modifies f`root, f`ring
    modifies f.Repr()`leadingNext, f.Repr()`leadingPrior, f.Repr()`trailingNext, f.Repr()`trailingPrior
    ensures f.Valid() && f.root == PlugTree(c, i, Reversed(fs))
  {
    hide Word, Words, Ring, Distinct, Linked, Count, PlugTree, InsertAt, Reversed, Reversing, Done;
    ghost var t, a, b := f.root, Word(c)[..i], Word(c)[i..];
    var prior := Decrement(first);
    ReverseFacts(c, i, fs);
    f.root, f.ring := PlugTree(c, i, Reversed(fs)), InsertAt(Word(c), i, Words(Reversed(fs)));
    ReverseStarts(t, c, i, fs);
    assert Word(c)[i - 1] in Word(c) && prior.node in NodesOf(Word(c));
    var result := ReverseAppend(first, last, a, b, fs);
    CloseReversed(prior, result, c, i, fs);
  }

  lemma ReverseFacts<T(0)>(c: Tree<Node<T>>, i: nat, fs: seq<Tree<Node<T>>>)
    requires 0 < i < |Word(c)|
    ensures Word(PlugTree(c, i, fs)) == InsertAt(Word(c), i, Words(fs)) == Word(c)[..i] + Words(fs) + Word(c)[i..]
    ensures NodesOf(InsertAt(Word(c), i, Words(fs))) == NodesOf(Word(c)) + NodesOf(Words(fs))
    ensures NodesOf(Words(fs) + Word(c)[i..]) <= NodesOf(InsertAt(Word(c), i, Words(fs)))
    ensures Word(PlugTree(c, i, Reversed(fs))) == InsertAt(Word(c), i, Words(Reversed(fs)))
    ensures PlugTree(c, i, Reversed(fs)).node == PlugTree(c, i, fs).node
    ensures Count(PlugTree(c, i, Reversed(fs)).children) == Count(PlugTree(c, i, fs).children)
    ensures Distinct(InsertAt(Word(c), i, Words(fs))) ==> Distinct(InsertAt(Word(c), i, Words(Reversed(fs))))
  {
    hide Word, Words, Distinct, Count, PlugTree, Reversed;
    PlugFacts(c, i, fs);
    PlugFacts(c, i, Reversed(fs));
    ReversedWord(fs);
    InsertedRun(Word(c), i, Words(fs));
    var w, m, r := Word(c), Words(fs), Words(Reversed(fs));
    assert multiset(InsertAt(w, i, m)) == multiset(w[..i]) + multiset(m) + multiset(w[i..]);
    assert multiset(InsertAt(w, i, r)) == multiset(w[..i]) + multiset(r) + multiset(w[i..]);
    if Distinct(InsertAt(w, i, m)) { DistinctByMultiset(InsertAt(w, i, m), InsertAt(w, i, r)); }
  }

  /** The last set_next of reverse. */
  method CloseReversed<T(0)>(prior: Iter<T>, result: Iter<T>, ghost c: Tree<Node<T>>, ghost i: nat, ghost fs: seq<Tree<Node<T>>>)
    requires 0 < i < |Word(c)| && Reversing(Word(c)[..i], Word(c)[i..], fs, |fs|)
    requires prior == Word(c)[i - 1] && result == Done(Word(c)[i..], fs, |fs|)[0]
    requires Distinct(InsertAt(Word(c), i, Words(Reversed(fs))))
    modifies prior.node`leadingNext, prior.node`trailingNext, result.node`leadingPrior, result.node`trailingPrior
    ensures Ring(InsertAt(Word(c), i, Words(Reversed(fs))))
  {
    hide Word, Words, Distinct, Linked, Reversed;
    ghost var a, b := Word(c)[..i], Word(c)[i..];
    ghost var done := Done(b, fs, |fs|);
    assert fs[..|fs|] == fs;
    assert a + [] + done == InsertAt(Word(c), i, Words(Reversed(fs)));
    assert done[|done| - 1] == b[|b| - 1];
    LinkedByIndex<T>([]);
    Close(prior, result, a, [], done);
    assert a + done == InsertAt(Word(c), i, Words(Reversed(fs)));
  }
}
