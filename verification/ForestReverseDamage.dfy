/**
 * forest::reverse on a range that ends in front of another sibling: with two or more siblings the
 * loop walks past the end of the range, through the children of that sibling and back over the
 * siblings, and leaves them in their old order with the leading edge of that sibling cut out of
 * the ring.
 */
module ForestReverseDamage {
  import opened RoseForest
  import opened ForestLinks
  import opened Forests
  import opened ForestOperations
  import opened ForestReverse

  // ---- where the loop stands -----------------------------------------------------------------

  /**
   * Over(m): m siblings have been relinked.  Below(m): the walk has gone past the end and m
   * children of the sibling behind the range have been relinked.  Back(m): m siblings have been
   * relinked a second time.
   */
  datatype Stage = Over(m: nat) | Below(m: nat) | Back(m: nat)

  /** a stands in front of the siblings fs; behind them the tree d and the rest of the ring. */
  datatype Place<N> = Place(a: seq<Pos<N>>, fs: seq<Tree<N>>, d: Tree<N>, rest: seq<Pos<N>>) {
    function Open(): Pos<N> { Pos(d.node, true) }
    function Close(): Pos<N> { Pos(d.node, false) }
    /** What stands behind the siblings, and what of it stays in the ring. */
    ghost function Behind(): seq<Pos<N>> { Word(d) + rest }
    ghost function Tail(): seq<Pos<N>> { [Close()] + rest }
    ghost function Turned(): seq<Tree<N>> { Reversed(fs) }
    ghost function Cycle(): seq<Pos<N>> { Words(Turned()) + [Open()] }

    ghost predicate Ok() {
      a != [] && rest != [] && |fs| >= 2 && Distinct(a + Words(fs) + Behind())
    }
  }

  ghost predicate In<N>(p: Place<N>, st: Stage) {
    match st
    case Over(m) => m <= |p.fs|
    case Below(m) => m <= |p.d.children|
    case Back(m) => m <= |p.fs|
  }

  lemma {:induction false} ReversedLength<A>(s: seq<A>)
    ensures |Reversed(s)| == |s|
  {
    if s != [] { ReversedLength(s[..|s| - 1]); }
  }

  lemma {:induction false} ReversedAt<A>(s: seq<A>, i: nat)
    requires i < |s|
    ensures |Reversed(s)| == |s| && Reversed(s)[i] == s[|s| - 1 - i]
  {
    ReversedLength(s);
    if i > 0 {
      ReversedLength(s[..|s| - 1]);
      ReversedAt(s[..|s| - 1], i - 1);
    }
  }

  lemma ReversedTwice<A>(s: seq<A>)
    ensures Reversed(Reversed(s)) == s
  {
    ReversedLength(s);
    ReversedLength(Reversed(s));
    forall i | 0 <= i < |s| ensures Reversed(Reversed(s))[i] == s[i] {
      ReversedAt(Reversed(s), i);
      ReversedAt(s, |s| - 1 - i);
    }
  }

  // ---- the positions are all different -------------------------------------------------------

  lemma PlaceApart<N>(p: Place<N>)
    requires p.Ok()
    ensures |p.Turned()| == |p.fs| && multiset(Words(p.Turned())) == multiset(Words(p.fs))
    ensures Distinct(p.a + Words(p.d.children) + p.Tail()) && Distinct(p.a + Words(p.Turned()) + p.Tail())
    ensures Distinct(p.Cycle()) && Distinct(Words(p.d.children) + p.Tail())
    ensures p.Open() !in p.a && p.Open() !in Words(p.fs) && p.Open() !in Words(p.d.children) && p.Open() !in p.Tail()
  {
    hide Words, Distinct, Reversed;
    ReversedLength(p.fs);
    ReversedWord(p.fs);
    var a, f, c, r, o := p.a, Words(p.fs), Words(p.d.children), p.Tail(), [p.Open()];
    var w := a + f + p.Behind();
    assert w == a + f + o + c + r;
    SubDistinct(a, f, o, c, r, Words(p.Turned()));
  }

  lemma SubDistinct<A>(a: seq<A>, f: seq<A>, o: seq<A>, c: seq<A>, r: seq<A>, g: seq<A>)
    requires Distinct(a + f + o + c + r) && multiset(g) == multiset(f)
    ensures Distinct(a + c + r) && Distinct(a + g + r) && Distinct(g + o) && Distinct(c + r)
    ensures forall x :: x in o ==> x !in a && x !in f && x !in c && x !in r
  {
    var w := a + f + o + c + r;
    assert multiset(w) == multiset(a) + multiset(f) + multiset(o) + multiset(c) + multiset(r);
    assert multiset(a + c + r) == multiset(a) + multiset(c) + multiset(r);
    assert multiset(a + g + r) == multiset(a) + multiset(f) + multiset(r);
    assert multiset(g + o) == multiset(f) + multiset(o);
    assert multiset(c + r) == multiset(c) + multiset(r);
    SubMultiset(w, a + c + r);
    SubMultiset(w, a + g + r);
    SubMultiset(w, g + o);
    SubMultiset(w, c + r);
    forall x | x in o ensures x !in a && x !in f && x !in c && x !in r {
      assert multiset(w)[x] == 1;
    }
  }

  lemma SubMultiset<A>(w: seq<A>, s: seq<A>)
    requires Distinct(w) && multiset(s) <= multiset(w)
    ensures Distinct(s)
  {
    forall x | x in s ensures multiset(s)[x] == 1 {
      assert x in multiset(s) && x in w;
      assert multiset(w)[x] == 1;
    }
  }

  // ---- the links in each stage ---------------------------------------------------------------

  ghost predicate AllLinked<T(0)>(rs: seq<seq<Iter<T>>>)
    reads *
  {
    forall i :: 0 <= i < |rs| ==> Linked(rs[i])
  }

  /** The link that closes the ring from the end of the rest to the start of a. */
  ghost function Around<N>(p: Place<N>): seq<Pos<N>>
    requires p.a != [] && p.rest != []
  {
    [p.rest[|p.rest| - 1], p.a[0]]
  }

  ghost predicate Stands<T(0)>(p: Place<Node<T>>, st: Stage)
    requires p.Ok() && In(p, st)
    reads *
  {
    var cs := p.d.children;
    match st
    case Over(m) => Reversing(p.a, p.Behind(), p.fs, m)
    case Below(m) =>
      && AllLinked([p.a, Around(p), [p.Open()] + p.Cycle(), Todo(cs, m), Done(p.Tail(), cs, m)])
      && (m < |cs| ==> Next(Pos(cs[|cs| - 1].node, false)) == p.d.node) && Prior(p.Open()) == p.fs[0].node
    case Back(m) =>
      TurnedLength(p);
      && AllLinked([p.a, Around(p), Todo(p.Turned(), m) + [p.Open()], Done(p.Tail(), p.Turned(), m)])
      && Prior(p.Open()) == p.fs[0].node
  }

  lemma TurnedLength<N>(p: Place<N>)
    ensures |p.Turned()| == |p.fs|
  {
    ReversedLength(p.fs);
  }

  ghost function WalkAt<N>(p: Place<N>, st: Stage): Pos<N>
    requires In(p, st)
  {
    match st
    case Over(m) => if m < |p.fs| then Pos(p.fs[m].node, true) else p.Close()
    case Below(m) => if m < |p.d.children| then Pos(p.d.children[m].node, true) else p.Close()
    case Back(m) => TurnedLength(p); if m < |p.fs| then Pos(p.Turned()[m].node, true) else p.Open()
  }

  /** The run that starts at the result so far. */
  ghost function ResultRun<N>(p: Place<N>, st: Stage): seq<Pos<N>>
    requires In(p, st)
  {
    match st
    case Over(m) => Done(p.Behind(), p.fs, m)
    case Below(m) => Done(p.Tail(), p.d.children, m)
    case Back(m) => TurnedLength(p); Done(p.Tail(), p.Turned(), m)
  }

  ghost predicate Last<N>(p: Place<N>, st: Stage) { st == Back(|p.fs|) }

  ghost function After<N>(p: Place<N>, st: Stage): Stage
    requires In(p, st) && !Last(p, st)
  {
    match st
    case Over(m) => if m < |p.fs| then Over(m + 1) else Below(0)
    case Below(m) => if m < |p.d.children| then Below(m + 1) else Back(0)
    case Back(m) => Back(m + 1)
  }

  // ---- the two runs that a round joins, and the runs it leaves alone -------------------------

  datatype Cut<N> = Cut(x: Pos<N>, left: seq<Pos<N>>, right: seq<Pos<N>>, others: seq<seq<Pos<N>>>)

  ghost function CutAt<N>(p: Place<N>, st: Stage): Cut<N>
    requires p.Ok() && In(p, st) && !Last(p, st)
  {
    var cs, fixed := p.d.children, [p.a, Around(p)];
    TurnedLength(p);
    match st
    case Over(m) =>
      if m < |p.fs| then Cut(Pos(p.fs[m].node, false), Word(p.fs[m]), Done(p.Behind(), p.fs, m), fixed + [Todo(p.fs, m + 1)])
      else Cut(p.Open(), [p.Open()], p.Cycle(), fixed + [p.Cycle(), Words(cs) + p.Tail()])
    case Below(m) =>
      if m < |cs| then Cut(Pos(cs[m].node, false), Word(cs[m]), Done(p.Tail(), cs, m), fixed + [[p.Open()] + p.Cycle(), Todo(cs, m + 1)])
      else Cut(p.Open(), [p.Open()], Done(p.Tail(), cs, m), fixed + [p.Cycle(), p.Tail()])
    case Back(m) =>
      Cut(Pos(p.Turned()[m].node, false), Word(p.Turned()[m]), Done(p.Tail(), p.Turned(), m), fixed + [Todo(p.Turned(), m + 1) + [p.Open()]])
  }

  /** The cut can be made: every run is linked, and the new link lies inside none of them. */
  ghost predicate Ready<T(0)>(k: Cut<Node<T>>)
    reads *
  {
    && k.left != [] && k.right != [] && k.x == k.left[|k.left| - 1]
    && forall i :: 0 <= i < |[k.left, k.right] + k.others| ==>
         Linked(([k.left, k.right] + k.others)[i]) && Avoids(([k.left, k.right] + k.others)[i], k.x, k.right[0])
  }

  lemma OverReady<T(0)>(p: Place<Node<T>>, m: nat)
    requires p.Ok() && m < |p.fs| && Stands(p, Over(m))
    ensures Ready(CutAt(p, Over(m))) && CutAt(p, Over(m)).right == ResultRun(p, Over(m))
    ensures Increment(Pos(p.fs[m].node, false)) == WalkAt(p, Over(m + 1))
  {
    hide Words, Word, Distinct, Linked, Done, Todo;
    var a, b, fs := p.a, p.Behind(), p.fs;
    BehindEnds(p);
    CursorStep(a, b, fs, m);
    RunSteps(b, fs, m);
    RunHeads(b, fs, m);
    LinkedSplit(Word(fs[m]), Todo(fs, m + 1));
    RoundAvoids(a, b, fs, m);
    LinkedByIndex(Around(p));
  }

  lemma BehindEnds<N>(p: Place<N>)
    requires p.Ok()
    ensures var b := p.Behind(); b != [] && b[0] == p.Open() && b[|b| - 1] == p.rest[|p.rest| - 1]
    ensures p.Behind() == [p.Open()] + (Words(p.d.children) + p.Tail())
  {
  }

  /** Positions of one part of the ring are not positions of another. */
  lemma PartsApart<N>(p: Place<N>)
    requires p.Ok()
    ensures forall x :: x in Words(p.Turned()) ==> x !in p.a && x !in Words(p.d.children) && x !in p.Tail()
    ensures forall x :: x in Words(p.d.children) ==> x !in p.a && x !in p.Tail() && x !in p.Cycle()
    ensures forall x :: x in p.Tail() ==> x !in p.a && x !in p.Cycle()
    ensures p.Open() !in p.a && p.Open() !in Words(p.d.children) && p.Open() !in p.Tail() && p.Open() !in Words(p.Turned())
  {
    hide Words, Distinct, Reversed;
    PlaceApart(p);
    var a, f, c, r, o := p.a, Words(p.fs), Words(p.d.children), p.Tail(), [p.Open()];
    var g := Words(p.Turned());
    assert p.a + f + p.Behind() == a + f + o + c + r by { BehindEnds(p); }
    AllApart(a, f, o, c, r);
    assert forall x :: x in g <==> x in multiset(g);
    assert forall x :: x in f <==> x in multiset(f);
  }

  lemma AllApart<A>(a: seq<A>, f: seq<A>, o: seq<A>, c: seq<A>, r: seq<A>)
    requires Distinct(a + f + o + c + r)
    ensures forall x :: x in f ==> x !in a && x !in c && x !in r && x !in o
    ensures forall x :: x in c ==> x !in a && x !in r && x !in o
    ensures forall x :: x in r ==> x !in a && x !in o
    ensures forall x :: x in o ==> x !in a
  {
    hide Distinct;
    assert a + f + o + c + r == a + f + (o + c + r) == (a + f) + o + (c + r) == (a + f + o) + c + r;
    DistinctRuns(a, f, o + c + r);
    DistinctRuns(a + f, o, c + r);
    DistinctRuns(a + f + o, c, r);
    Members(a, f, o + c + r);
    Members(a + f, o, c + r);
    Members(a + f + o, c, r);
  }

  lemma Members<A>(a: seq<A>, m: seq<A>, b: seq<A>)
    requires forall i, j :: 0 <= i < |a| && 0 <= j < |m| ==> a[i] != m[j]
    requires forall i, j :: 0 <= i < |a| && 0 <= j < |b| ==> a[i] != b[j]
    requires forall i, j :: 0 <= i < |m| && 0 <= j < |b| ==> m[i] != b[j]
    ensures forall x :: x in m ==> x !in a && x !in b
    ensures forall x :: x in b ==> x !in a && x !in m
  {
  }

  /** A link that leaves the end of a run, or touches it nowhere. */
  lemma AvoidsOutside<T(0)>(s: seq<Iter<T>>, x: Iter<T>, y: Iter<T>)
    requires Distinct(s) && (x !in s || x == s[|s| - 1]) && (y !in s || y == s[0])
    ensures Avoids(s, x, y)
  {
    DistinctByIndex(s);
  }

  lemma AvoidsAround<T(0)>(p: Place<Node<T>>, x: Iter<T>, y: Iter<T>)
    requires p.Ok() && x != p.rest[|p.rest| - 1] && y != p.a[0]
    ensures Avoids(Around(p), x, y)
  {
  }

  /** The ends of the word of some siblings. */
  lemma WordsEnds<N>(fs: seq<Tree<N>>)
    requires fs != []
    ensures var w := Words(fs); w != [] && w[0] == Pos(fs[0].node, true) && w[|w| - 1] == Pos(fs[|fs| - 1].node, false)
  {
    hide Words;
    RunHeads([Pos(fs[0].node, true)], fs, 0);
    assert fs[0..] == fs;
    LastSibling(fs);
  }

  /** The siblings once they are turned: a cycle that begins with the last and ends with the first. */
  lemma CycleEnds<N>(p: Place<N>)
    requires p.Ok()
    ensures var g, w, n := p.Turned(), Words(p.Turned()), |p.fs|;
      && |g| == n && w != [] && p.Cycle()[0] == w[0] == Pos(g[0].node, true) && w[|w| - 1] == Pos(g[n - 1].node, false)
      && g[0] == p.fs[n - 1] && g[n - 1] == p.fs[0]
    ensures Done(p.Behind(), p.fs, |p.fs|) == p.Cycle() + (Words(p.d.children) + p.Tail())
  {
    hide Words, Word, Reversed, Distinct;
    ReversedAt(p.fs, 0);
    ReversedAt(p.fs, |p.fs| - 1);
    WordsEnds(p.Turned());
    assert p.fs[..|p.fs|] == p.fs;
    BehindEnds(p);
  }

  lemma FrontDistinct<N>(p: Place<N>)
    requires p.Ok()
    ensures Distinct(p.a) && Distinct(p.Tail()) && p.rest[|p.rest| - 1] in p.Tail() && p.rest[|p.rest| - 1] != p.Close()
  {
    hide Words, Word, Distinct, Reversed;
    PlaceApart(p);
    DistinctRuns(p.a, Words(p.d.children), p.Tail());
    DistinctByIndex(p.Tail());
    assert p.Tail()[|p.rest|] == p.rest[|p.rest| - 1] && p.Tail()[0] == p.Close();
  }

  lemma TurnReady<T(0)>(p: Place<Node<T>>)
    requires p.Ok() && Stands(p, Over(|p.fs|))
    ensures Ready(CutAt(p, Over(|p.fs|))) && CutAt(p, Over(|p.fs|)).right[0] == ResultRun(p, Over(|p.fs|))[0]
    ensures Increment(p.Open()) == WalkAt(p, Below(0))
    ensures var cs := p.d.children; cs != [] ==> Next(Pos(cs[|cs| - 1].node, false)) == p.d.node
  {
    hide Words, Word, Distinct, Linked, Reversed;
    var cs, x, inner := p.d.children, p.Open(), Words(p.d.children) + p.Tail();
    BehindEnds(p);
    CycleEnds(p);
    LinkedSplit(p.Cycle(), inner);
    var y := p.Cycle()[0];
    PlaceApart(p);
    PartsApart(p);
    FrontDistinct(p);
    AvoidsOutside(p.a, x, y);
    AvoidsOutside(p.Cycle(), x, y);
    AvoidsOutside(inner, x, y);
    AvoidsAround(p, x, y);
    LinkedByIndex(Around(p));
    LinkedByIndex([x]);
    if cs == [] {
      assert Words(cs) == [] by { NoWords<Node<T>>(); }
    } else {
      WordsEnds(cs);
      LinkedSplit(Words(cs), p.Tail());
    }
  }

  lemma NoWords<N>()
    ensures Words<N>([]) == []
  {
  }

  lemma TodoIn<N>(fs: seq<Tree<N>>, b: seq<Pos<N>>, m: nat)
    requires m < |fs|
    ensures forall x :: x in Todo(fs, m) ==> x in Words(fs)
    ensures forall x :: x in Word(fs[m]) ==> x in Words(fs)
    ensures Pos(fs[m].node, false) in Words(fs) && Word(fs[m])[|Word(fs[m])| - 1] == Pos(fs[m].node, false)
    ensures forall x :: x in Done(b, fs, m) ==> x in Words(fs) || x in b
  {
    hide Words, Word, Reversed;
    assert fs == fs[..m] + fs[m..];
    WordsConcat(fs[..m], fs[m..]);
    ReversedWord(fs[..m]);
    RunSteps(b, fs, m);
    SiblingEdges(fs, m);
    var done := Words(Reversed(fs[..m]));
    assert forall x :: x in done <==> x in multiset(done);
    assert forall x :: x in Words(fs[..m]) <==> x in multiset(Words(fs[..m]));
  }

  lemma BelowReady<T(0)>(p: Place<Node<T>>, m: nat)
    requires p.Ok() && m < |p.d.children| && Stands(p, Below(m))
    ensures Ready(CutAt(p, Below(m)))
    ensures Increment(Pos(p.d.children[m].node, false)) == WalkAt(p, Below(m + 1))
  {
    hide Words, Word, Distinct, Linked, Done, Todo, Reversed;
    var cs, b, cycle := p.d.children, p.Tail(), [p.Open()] + p.Cycle();
    var runs := [p.a, Around(p), cycle, Todo(cs, m), Done(b, cs, m)];
    assert runs[0] == p.a && runs[1] == Around(p) && runs[2] == cycle && runs[3] == Todo(cs, m) && runs[4] == Done(b, cs, m);
    PlaceApart(p);
    PartsApart(p);
    RunSteps(b, cs, m);
    RunHeads(b, cs, m);
    RunHeads(b, cs, m + 1);
    LinkedSplit(Word(cs[m]), Todo(cs, m + 1));
    RoundAvoids(p.a, b, cs, m);
    TodoIn(cs, b, m);
    var x, y := Pos(cs[m].node, false), Done(b, cs, m)[0];
    assert x !in cycle && y !in cycle;
    BelowStep(p, m);
  }

  lemma BelowStep<T(0)>(p: Place<Node<T>>, m: nat)
    requires p.Ok() && m < |p.d.children| && Linked(Todo(p.d.children, m)) && Linked([p.Open()] + p.Cycle())
    requires Next(Pos(p.d.children[|p.d.children| - 1].node, false)) == p.d.node
    ensures Increment(Pos(p.d.children[m].node, false)) == WalkAt(p, Below(m + 1))
  {
    hide Words, Word, Distinct, Linked, Done, Todo, Reversed;
    var cs, b := p.d.children, p.Tail();
    RunSteps(b, cs, m);
    RunHeads(b, cs, m + 1);
    LinkedSplit(Word(cs[m]), Todo(cs, m + 1));
    if m + 1 == |cs| {
      LinkedSplit([p.Open()], p.Cycle());
      LinkedSplit(Words(p.Turned()), [p.Open()]);
      CycleEnds(p);
      PartsApart(p);
      WordsEnds(cs);
      assert Prior(p.Open()) == p.fs[0].node;
      assert Pos(p.fs[0].node, false) in Words(p.Turned()) && Pos(cs[m].node, false) in Words(cs);
    }
  }

  lemma BelowDone<T(0)>(p: Place<Node<T>>)
    requires p.Ok() && Stands(p, Below(|p.d.children|))
    ensures Ready(CutAt(p, Below(|p.d.children|)))
    ensures Increment(p.Open()) == WalkAt(p, Back(0))
  {
    hide Words, Word, Distinct, Linked, Reversed;
    var cs, b, x, cycle := p.d.children, p.Tail(), p.Open(), [p.Open()] + p.Cycle();
    var m := |cs|;
    var runs := [p.a, Around(p), cycle, Todo(cs, m), Done(b, cs, m)];
    assert runs[0] == p.a && runs[1] == Around(p) && runs[2] == cycle && runs[4] == Done(b, cs, m);
    assert cs[..m] == cs;
    LinkedSplit([x], p.Cycle());
    LinkedSplit(Words(Reversed(cs)), b);
    CycleEnds(p);
    PlaceApart(p);
    PartsApart(p);
    FrontDistinct(p);
    ReversedWord(cs);
    TurnedIn(cs);
    RoundDistinct(p.a, b, cs, m);
    DistinctRuns(p.a, Todo(cs, m), Done(b, cs, m));
    var y := Done(b, cs, m)[0];
    assert y in Done(b, cs, m);
    if cs == [] { NoneReversed<Node<T>>(); } else { ReversedAt(cs, 0); WordsEnds(Reversed(cs)); }
    AvoidsOutside(p.a, x, y);
    AvoidsOutside(p.Cycle(), x, y);
    AvoidsOutside(Done(b, cs, m), x, y);
    AvoidsOutside(b, x, y);
    AvoidsAround(p, x, y);
    LinkedByIndex([x]);
  }

  lemma TurnedIn<N>(fs: seq<Tree<N>>)
    ensures forall x :: x in Words(Reversed(fs)) ==> x in Words(fs)
    ensures forall x :: x in Words(fs) ==> x in Words(Reversed(fs))
  {
    hide Words, Reversed;
    ReversedWord(fs);
    assert forall x :: x in Words(fs) <==> x in multiset(Words(fs));
    assert forall x :: x in Words(Reversed(fs)) <==> x in multiset(Words(Reversed(fs)));
  }

  lemma TurnedEdge<N>(fs: seq<Tree<N>>, m: nat)
    requires m < |fs|
    ensures |Reversed(fs)| == |fs| && Pos(Reversed(fs)[m].node, true) in Words(fs)
  {
    hide Words, Reversed;
    ReversedLength(fs);
    SiblingEdges(Reversed(fs), m);
    TurnedIn(fs);
    assert Pos(Reversed(fs)[m].node, true) in Words(Reversed(fs));
  }

  lemma NoneReversed<N>()
    ensures Words(Reversed<Tree<N>>([])) == []
  {
  }

  lemma BackReady<T(0)>(p: Place<Node<T>>, m: nat)
    requires p.Ok() && m < |p.fs| && Stands(p, Back(m))
    ensures Ready(CutAt(p, Back(m)))
    ensures |p.Turned()| == |p.fs| && Increment(Pos(p.Turned()[m].node, false)) == WalkAt(p, Back(m + 1))
  {
    hide Words, Word, Distinct, Linked, Done, Todo, Reversed;
    TurnedLength(p);
    var gs, b, o := p.Turned(), p.Tail(), [p.Open()];
    var runs := [p.a, Around(p), Todo(gs, m) + o, Done(b, gs, m)];
    assert runs[0] == p.a && runs[1] == Around(p) && runs[2] == Todo(gs, m) + o && runs[3] == Done(b, gs, m);
    PlaceApart(p);
    PartsApart(p);
    RunSteps(b, gs, m);
    RunHeads(b, gs, m);
    RunHeads(b, gs, m + 1);
    var later := Todo(gs, m + 1) + o;
    assert Todo(gs, m) + o == Word(gs[m]) + later;
    LinkedSplit(Word(gs[m]), later);
    RoundAvoids(p.a, b, gs, m);
    TodoIn(gs, b, m);
    var x, y := Pos(gs[m].node, false), Done(b, gs, m)[0];
    AvoidsMore(p, m, x, y);
  }

  lemma AvoidsMore<T(0)>(p: Place<Node<T>>, m: nat, x: Iter<T>, y: Iter<T>)
    requires p.Ok() && m < |p.fs| == |p.Turned()| && x == Pos(p.Turned()[m].node, false) && y == Done(p.Tail(), p.Turned(), m)[0]
    ensures Avoids(Todo(p.Turned(), m + 1) + [p.Open()], x, y)
  {
    hide Words, Word, Distinct, Linked, Done, Todo, Reversed;
    var gs, b := p.Turned(), p.Tail();
    PlaceApart(p);
    PartsApart(p);
    RoundDistinct(p.a, b, gs, m);
    RunSteps(b, gs, m);
    RunHeads(b, gs, m);
    TodoIn(gs, b, m);
    DistinctRuns(p.a, Todo(gs, m), Done(b, gs, m));
    var w, later := Word(gs[m]), Todo(gs, m + 1);
    assert w + later == w + later + [];
    DistinctRuns(w, later, []);
    assert w[|w| - 1] == x;
    assert forall i :: 0 <= i < |later| ==> (w + later)[|w| + i] == later[i];
    assert x != p.Open() && y != p.Open();
  }

  // ---- one round of the loop -----------------------------------------------------------------

  /** Links that point one way only. */
  ghost predicate Pointers<T(0)>(p: Place<Node<T>>, st: Stage)
    requires p.Ok()
    reads *
  {
    var n, cs := |p.fs|, p.d.children;
    match st
    case Over(m) =>
      && (m < n ==> Next(Pos(p.fs[n - 1].node, false)) == p.d.node)
      && Prior(p.Open()) == p.fs[if m == 0 then n - 1 else 0].node
    case Below(m) => (m < |cs| ==> Next(Pos(cs[|cs| - 1].node, false)) == p.d.node) && Prior(p.Open()) == p.fs[0].node
    case Back(_) => Prior(p.Open()) == p.fs[0].node
  }

  lemma RoundReady<T(0)>(p: Place<Node<T>>, st: Stage)
    requires p.Ok() && In(p, st) && !Last(p, st) && Stands(p, st)
    ensures Ready(CutAt(p, st)) && CutAt(p, st).x == WalkAt(p, st).Pivot()
    ensures ResultRun(p, st) != [] && CutAt(p, st).right[0] == ResultRun(p, st)[0]
    ensures In(p, After(p, st)) && Increment(WalkAt(p, st).Pivot()) == WalkAt(p, After(p, st))
    ensures Pointers(p, st) && (st == Over(|p.fs|) ==> Pointers(p, Below(0)))
  {
    hide Words, Word, Distinct, Linked, Reversed, Ready, Todo;
    BehindEnds(p);
    TurnedLength(p);
    match st
    case Over(m) =>
      RunHeads(p.Behind(), p.fs, m);
      if m < |p.fs| { OverReady(p, m); } else { TurnReady(p); }
    case Below(m) =>
      RunHeads(p.Tail(), p.d.children, m);
      if m < |p.d.children| { BelowReady(p, m); } else { BelowDone(p); }
    case Back(m) =>
      RunHeads(p.Tail(), p.Turned(), m);
      BackReady(p, m);
  }

  lemma OverSettles<T(0)>(p: Place<Node<T>>, m: nat)
    requires p.Ok() && m < |p.fs| && Pointers(p, Over(m + 1))
    requires Linked(CutAt(p, Over(m)).left + CutAt(p, Over(m)).right) && AllLinked(CutAt(p, Over(m)).others)
    ensures Stands(p, Over(m + 1))
  {
    hide Words, Word, Distinct, Linked, Reversed, Done, Todo;
    var o := CutAt(p, Over(m)).others;
    assert o[0] == p.a && o[1] == Around(p) && o[2] == Todo(p.fs, m + 1);
    RunSteps(p.Behind(), p.fs, m);
    BehindEnds(p);
    LinkedByIndex(Around(p));
    assert Adjacent(Around(p)[0], Around(p)[1]);
  }

  lemma TurnSettles<T(0)>(p: Place<Node<T>>)
    requires p.Ok() && Pointers(p, Below(0))
    requires var k := CutAt(p, Over(|p.fs|)); Linked(k.left + k.right) && AllLinked(k.others)
    ensures Stands(p, Below(0))
  {
    hide Words, Word, Distinct, Linked, Reversed;
    var o, cs := CutAt(p, Over(|p.fs|)).others, p.d.children;
    assert o[0] == p.a && o[1] == Around(p) && o[2] == p.Cycle() && o[3] == Words(cs) + p.Tail();
    LinkedSplit(Words(cs), p.Tail());
    DoneNothing(p.Tail(), cs);
  }

  lemma BelowSettles<T(0)>(p: Place<Node<T>>, m: nat)
    requires p.Ok() && m < |p.d.children| && Pointers(p, Below(m + 1))
    requires Linked(CutAt(p, Below(m)).left + CutAt(p, Below(m)).right) && AllLinked(CutAt(p, Below(m)).others)
    ensures Stands(p, Below(m + 1))
  {
    hide Words, Word, Distinct, Linked, Reversed, Done, Todo;
    var o := CutAt(p, Below(m)).others;
    assert o[0] == p.a && o[1] == Around(p) && o[2] == [p.Open()] + p.Cycle() && o[3] == Todo(p.d.children, m + 1);
    RunSteps(p.Tail(), p.d.children, m);
  }

  lemma DoneSettles<T(0)>(p: Place<Node<T>>)
    requires p.Ok() && Pointers(p, Back(0)) && AllLinked(CutAt(p, Below(|p.d.children|)).others)
    ensures Stands(p, Back(0))
  {
    hide Words, Word, Distinct, Linked, Reversed;
    var o := CutAt(p, Below(|p.d.children|)).others;
    assert o[0] == p.a && o[1] == Around(p) && o[2] == p.Cycle() && o[3] == p.Tail();
    TurnedLength(p);
    DoneNothing(p.Tail(), p.Turned());
  }

  lemma BackSettles<T(0)>(p: Place<Node<T>>, m: nat)
    requires p.Ok() && m < |p.fs| && Pointers(p, Back(m + 1))
    requires Linked(CutAt(p, Back(m)).left + CutAt(p, Back(m)).right) && AllLinked(CutAt(p, Back(m)).others)
    ensures Stands(p, Back(m + 1))
  {
    hide Words, Word, Distinct, Linked, Reversed, Done, Todo;
    TurnedLength(p);
    var o := CutAt(p, Back(m)).others;
    assert o[0] == p.a && o[1] == Around(p) && o[2] == Todo(p.Turned(), m + 1) + [p.Open()];
    RunSteps(p.Tail(), p.Turned(), m);
  }

  lemma Settles<T(0)>(p: Place<Node<T>>, st: Stage)
    requires p.Ok() && In(p, st) && !Last(p, st) && Pointers(p, After(p, st))
    requires var k := CutAt(p, st); Linked(k.left + k.right) && AllLinked(k.others)
    ensures In(p, After(p, st)) && Stands(p, After(p, st))
    ensures ResultRun(p, After(p, st)) != [] && ResultRun(p, After(p, st))[0] == WalkAt(p, st)
  {
    hide Words, Word, Distinct, Linked, Reversed, Todo, AllLinked, CutAt;
    BehindEnds(p);
    TurnedLength(p);
    match st
    case Over(m) =>
      if m < |p.fs| { OverSettles(p, m); RunHeads(p.Behind(), p.fs, m + 1); } else { TurnSettles(p); RunHeads(p.Tail(), p.d.children, 0); }
    case Below(m) =>
      if m < |p.d.children| { BelowSettles(p, m); RunHeads(p.Tail(), p.d.children, m + 1); } else { DoneSettles(p); RunHeads(p.Tail(), p.Turned(), 0); }
    case Back(m) =>
      BackSettles(p, m);
      RunHeads(p.Tail(), p.Turned(), m + 1);
  }

  /** The nodes whose one-way links matter. */
  ghost function Watched<N>(p: Place<N>): set<N>
    requires p.Ok()
  {
    {p.fs[|p.fs| - 1].node, p.d.node} + (if p.d.children == [] then {} else {p.d.children[|p.d.children| - 1].node})
  }

  /** Which of the watched links a round rewrites. */
  lemma Rewrites<N>(p: Place<N>, st: Stage)
    requires p.Ok() && In(p, st) && !Last(p, st) && ResultRun(p, st) != []
    ensures var n, cs, x, y := |p.fs|, p.d.children, WalkAt(p, st).Pivot(), ResultRun(p, st)[0];
      match st
      case Over(m) => (m + 1 < n ==> x != Pos(p.fs[n - 1].node, false)) && (y == p.Open() <==> m == 0) && (m == n ==> x.leading)
      case Below(m) => (m + 1 < |cs| ==> x != Pos(cs[|cs| - 1].node, false)) && (m == |cs| ==> x.leading) && y != p.Open()
      case Back(_) => y != p.Open()
  {
    hide Words, Word, Distinct, Reversed, Done;
    PlaceApart(p);
    BehindEnds(p);
    match st
    case Over(m) =>
      SiblingsApart(p.a, p.Behind(), p.fs);
      RunHeads(p.Behind(), p.fs, m);
      assert p.Open() in p.Behind();
    case Below(m) =>
      SiblingsApart(p.a, p.Tail(), p.d.children);
      RunHeads(p.Tail(), p.d.children, m);
      if m > 0 { SiblingEdges(p.d.children, m - 1); }
    case Back(m) =>
      RunHeads(p.Tail(), p.Turned(), m);
      PartsApart(p);
      if m > 0 { SiblingEdges(p.Turned(), m - 1); }
  }

  /** The body of the loop of reverse_append: prior = first; ++first; set_next(prior, result); result = prior. */
  method OverRound<T(0)>(first: Iter<T>, result: Iter<T>, ghost p: Place<Node<T>>, ghost st: Stage) returns (first': Iter<T>, result': Iter<T>)
    requires p.Ok() && In(p, st) && !Last(p, st) && Stands(p, st) && first == WalkAt(p, st)
    requires ResultRun(p, st) != [] && result == ResultRun(p, st)[0]
    modifies first.node`leadingNext, first.node`trailingNext, result.node`leadingPrior, result.node`trailingPrior
    ensures In(p, After(p, st)) && Stands(p, After(p, st)) && first' == WalkAt(p, After(p, st))
    ensures ResultRun(p, After(p, st)) != [] && result' == ResultRun(p, After(p, st))[0]
  {
    hide Words, Word, Distinct, Linked, Reversed, Todo, Done, CutAt, Stands, ResultRun;
    RoundReady(p, st);
    Rewrites(p, st);
    ghost var k := CutAt(p, st);
    ghost var runs := [k.left, k.right] + k.others;
    assert forall r :: r in runs ==> Linked(r) && Avoids(r, k.x, k.right[0]);
    var prior := first;
    first' := Increment(prior.Pivot());
    Join(prior.Pivot(), result, k.left, k.right, k.others, Watched(p));
    assert forall i :: 0 <= i < |k.others| ==> k.others[i] in k.others;
    assert Pointers(p, After(p, st));
    Settles(p, st);
    result' := prior;
  }

  /** How many rounds are left. */
  ghost function RoundsLeft<N>(p: Place<N>, st: Stage): nat
    requires In(p, st)
  {
    var n, k := |p.fs|, |p.d.children|;
    match st
    case Over(m) => (n - m) + 1 + k + 1 + n
    case Below(m) => (k - m) + 1 + n
    case Back(m) => n - m
  }

  /** The walk meets the end of the range in the last stage only. */
  lemma MeetsEnd<N>(p: Place<N>, st: Stage)
    requires p.Ok() && In(p, st)
    ensures WalkAt(p, st) == p.Open() <==> Last(p, st)
  {
    hide Words, Word, Distinct, Reversed;
    PartsApart(p);
    PlaceApart(p);
    match st
    case Over(m) => if m < |p.fs| { SiblingEdges(p.fs, m); }
    case Below(m) => if m < |p.d.children| { SiblingEdges(p.d.children, m); }
    case Back(m) => if m < |p.fs| { SiblingEdges(p.Turned(), m); }
  }

  // ---- the whole of reverse ------------------------------------------------------------------

  /** Every round relinks nodes of the siblings and of what stands behind them. */
  lemma InReach<T(0)>(p: Place<Node<T>>, st: Stage)
    requires p.Ok() && In(p, st)
    ensures WalkAt(p, st).node in NodesOf(Words(p.fs) + p.Behind())
    ensures ResultRun(p, st) != [] && ResultRun(p, st)[0].node in NodesOf(Words(p.fs) + p.Behind())
  {
    hide Words, Word, Distinct, Reversed, Done;
    var all := Words(p.fs) + p.Behind();
    BehindEnds(p);
    PlaceApart(p);
    TurnedIn(p.fs);
    assert p.Open() in all && p.Close() in p.Tail() && p.Close() in all;
    match st
    case Over(m) =>
      RunHeads(p.Behind(), p.fs, m);
      if m < |p.fs| { SiblingEdges(p.fs, m); }
      if m > 0 { SiblingEdges(p.fs, m - 1); }
    case Below(m) =>
      RunHeads(p.Tail(), p.d.children, m);
      if m < |p.d.children| { SiblingEdges(p.d.children, m); }
      if m > 0 { SiblingEdges(p.d.children, m - 1); }
    case Back(m) =>
      RunHeads(p.Tail(), p.Turned(), m);
      if m < |p.fs| { TurnedEdge(p.fs, m); }
      if m > 0 { TurnedEdge(p.fs, m - 1); }
  }

  /** reverse_append(first, last, last): the loop ends, after it has been over the siblings twice. */
  method ReverseAppendPast<T(0)>(first: Iter<T>, last: Iter<T>, ghost p: Place<Node<T>>) returns (result: Iter<T>)
    requires p.Ok() && Stands(p, Over(0)) && first == WalkAt(p, Over(0)) && last == p.Open()
    modifies NodesOf(Words(p.fs) + p.Behind())`leadingNext, NodesOf(Words(p.fs) + p.Behind())`leadingPrior
    modifies NodesOf(Words(p.fs) + p.Behind())`trailingNext, NodesOf(Words(p.fs) + p.Behind())`trailingPrior
    ensures Stands(p, Back(|p.fs|)) && ResultRun(p, Back(|p.fs|)) != [] && result == ResultRun(p, Back(|p.fs|))[0]
  {
    hide Words, Word, Distinct, Linked, Reversed, Todo, Done, Stands, ResultRun, WalkAt;
    var walk := first;
    result := last;
    ghost var st := Over(0);
    InReach(p, st);
    Starts(p);
    while walk != last
      invariant In(p, st) && Stands(p, st) && walk == WalkAt(p, st)
      invariant ResultRun(p, st) != [] && result == ResultRun(p, st)[0]
      decreases RoundsLeft(p, st)
    {
      MeetsEnd(p, st);
      InReach(p, st);
      walk, result := OverRound(walk, result, p, st);
      st := After(p, st);
    }
    MeetsEnd(p, st);
  }

  lemma Starts<N>(p: Place<N>)
    requires p.Ok()
    ensures ResultRun(p, Over(0)) != [] && ResultRun(p, Over(0))[0] == p.Open()
  {
    hide Words, Word, Distinct, Reversed, Done;
    BehindEnds(p);
    RunHeads(p.Behind(), p.fs, 0);
  }

  /** What stands around the range, read off the forest without it. */
  lemma PlaceOf<T(0)>(c: Tree<Node<T>>, i: nat, fs: seq<Tree<Node<T>>>) returns (p: Place<Node<T>>)
    requires 0 < i < |Word(c)| && Word(c)[i].leading && |fs| >= 2 && Distinct(InsertAt(Word(c), i, Words(fs)))
    ensures p.Ok() && p.a == Word(c)[..i] && p.fs == fs && p.Behind() == Word(c)[i..] && p.Open() == Word(c)[i]
  {
    hide Words, Distinct, SubtreeAt, Without;
    var d, a, rest := SubtreeRun(c, i);
    p := Place(a, fs, d, rest);
    var w := Word(c);
    assert w[..i] == a && w[i..] == Word(d) + rest;
    DistinctInserted(w, i, Words(fs));
    DistinctByIndex(w);
  }

  /** The links of the loop's last stage fit neither the reversed siblings nor the old ring. */
  lemma Damaged<T(0)>(p: Place<Node<T>>)
    requires p.Ok() && Linked(Words(p.fs)) && Prior(p.Open()) == p.fs[0].node
    ensures !Ring(p.a + Words(p.Turned()) + p.Behind()) && !Ring(p.a + Words(p.fs) + p.Behind())
  {
    hide Words, Word, Distinct, Linked, Reversed;
    var fs, n := p.fs, |p.fs|;
    BehindEnds(p);
    CycleEnds(p);
    WordsEnds(fs);
    SiblingsApart(p.a, p.Behind(), fs);
    assert p.Open() in p.Behind();
    assert fs == [fs[0]] + fs[1..];
    WordsCons(fs[0], fs[1..]);
    WordsEnds(fs[1..]);
    LinkedSplit(Word(fs[0]), Words(fs[1..]));
    assert Next(Pos(fs[0].node, false)) == fs[1].node;
    if Ring(p.a + Words(p.Turned()) + p.Behind()) { LinkedSplit(p.a + Words(p.Turned()), p.Behind()); }
    if Ring(p.a + Words(fs) + p.Behind()) { LinkedSplit(p.a + Words(fs), p.Behind()); }
  }

  /** The last stage, in terms of the siblings in their old order. */
  lemma Ended<T(0)>(p: Place<Node<T>>)
    requires p.Ok() && Stands(p, Back(|p.fs|))
    ensures ResultRun(p, Back(|p.fs|)) == Words(p.fs) + p.Tail()
    ensures Linked(p.a) && Linked(Words(p.fs) + p.Tail()) && Linked(Around(p)) && Prior(p.Open()) == p.fs[0].node
  {
    hide Words, Word, Distinct, Linked, Todo;
    TurnedLength(p);
    var gs, n := p.Turned(), |p.fs|;
    var runs := [p.a, Around(p), Todo(gs, n) + [p.Open()], Done(p.Tail(), gs, n)];
    assert runs[0] == p.a && runs[1] == Around(p) && runs[3] == Done(p.Tail(), gs, n);
    assert gs[..n] == gs;
    ReversedTwice(p.fs);
  }

  /** The joint of the last set_next. */
  lemma LastJoint<T(0)>(p: Place<Node<T>>)
    requires p.Ok()
    ensures var x, run := p.a[|p.a| - 1], Words(p.fs) + p.Tail();
      && run != [] && run[0] == Pos(p.fs[0].node, true) && run[0] != p.Open()
      && Avoids(p.a, x, run[0]) && Avoids(run, x, run[0]) && Avoids(Around(p), x, run[0])
  {
    hide Words, Word, Distinct, Reversed;
    var x, run := p.a[|p.a| - 1], Words(p.fs) + p.Tail();
    WordsEnds(p.fs);
    PlaceApart(p);
    TurnedIn(p.fs);
    PartsApart(p);
    FrontDistinct(p);
    SubRun(p);
    assert x in p.a && run[0] in Words(p.fs);
    AvoidsOutside(p.a, x, run[0]);
    AvoidsOutside(run, x, run[0]);
    AvoidsAround(p, x, run[0]);
  }

  lemma SubRun<N>(p: Place<N>)
    requires p.Ok()
    ensures Distinct(Words(p.fs) + p.Tail())
  {
    hide Words, Word, Distinct, Reversed;
    PlaceApart(p);
    var f, g, r := Words(p.fs), Words(p.Turned()), p.Tail();
    assert multiset(p.a + g + r) == multiset(p.a) + multiset(g) + multiset(r);
    assert multiset(f + r) == multiset(f) + multiset(r);
    SubMultiset(p.a + g + r, f + r);
  }

  lemma AtStart<T(0)>(p: Place<Node<T>>)
    requires p.Ok() && Reversing(p.a, p.Behind(), p.fs, 0)
    ensures Stands(p, Over(0))
  {
  }

  lemma Rings<T(0)>(p: Place<Node<T>>)
    requires p.Ok() && Linked(p.a + (Words(p.fs) + p.Tail())) && Linked(Around(p))
    ensures Ring(p.a + (Words(p.fs) + p.Tail())) && Linked(Words(p.fs))
    ensures Linked(p.a + (Words(p.fs) + p.Tail()))
  {
    hide Words, Word, Distinct, Linked, Reversed;
    LinkedSplit(p.a, Words(p.fs) + p.Tail());
    LinkedSplit(Words(p.fs), p.Tail());
    LinkedByIndex(Around(p));
    assert Adjacent(Around(p)[0], Around(p)[1]);
  }

  /** The last set_next of reverse. */
  method CloseDamaged<T(0)>(prior: Iter<T>, result: Iter<T>, ghost p: Place<Node<T>>)
    requires p.Ok() && Stands(p, Back(|p.fs|)) && prior == p.a[|p.a| - 1]
    requires ResultRun(p, Back(|p.fs|)) != [] && result == ResultRun(p, Back(|p.fs|))[0]
    modifies prior.node`leadingNext, prior.node`trailingNext, result.node`leadingPrior, result.node`trailingPrior
    ensures Ring(p.a + (Words(p.fs) + p.Tail()))
    ensures !Ring(p.a + Words(p.Turned()) + p.Behind()) && !Ring(p.a + Words(p.fs) + p.Behind())
    ensures Increment(Pos(p.fs[|p.fs| - 1].node, false)) == p.Close()
  {
    hide Word, Words, Ring, Distinct, Linked, Reversed, Done, Stands, ResultRun, Todo;
    Ended(p);
    LastJoint(p);
    ghost var run := Words(p.fs) + p.Tail();
    ghost var runs := [p.a, run] + [Around(p)];
    assert runs[0] == p.a && runs[1] == run && runs[2] == Around(p);
    Join(prior, result, p.a, run, [Around(p)], {p.d.node});
    assert [Around(p)][0] == Around(p);
    Rings(p);
    Damaged(p);
    PastTheLast(p);
  }

  /** From the last sibling of the range the traversal now steps to the trailing edge of d. */
  lemma PastTheLast<T(0)>(p: Place<Node<T>>)
    requires p.Ok() && Linked(p.a + (Words(p.fs) + p.Tail())) && Prior(p.Open()) == p.fs[0].node
    ensures Increment(Pos(p.fs[|p.fs| - 1].node, false)) == p.Close()
  {
    hide Word, Words, Distinct, Linked, Reversed;
    LinkedSplit(p.a, Words(p.fs) + p.Tail());
    LinkedSplit(Words(p.fs), p.Tail());
    WordsEnds(p.fs);
    SiblingsApart(p.a, p.Behind(), p.fs);
  }

  /** The words of the forest before the call, and of the one that reverse promises. */
  lemma PlaceWords<T(0)>(c: Tree<Node<T>>, i: nat, fs: seq<Tree<Node<T>>>, p: Place<Node<T>>)
    requires 0 < i < |Word(c)| && p.a == Word(c)[..i] && p.fs == fs && p.Behind() == Word(c)[i..]
    ensures Word(PlugTree(c, i, fs)) == p.a + Words(fs) + p.Behind()
    ensures Word(PlugTree(c, i, Reversed(fs))) == p.a + Words(p.Turned()) + p.Behind()
  {
    hide Word, Words, PlugTree, Reversed;
    PlugTreeWord(c, i, fs);
    PlugTreeWord(c, i, Reversed(fs));
  }

  /** What holds before the loop: the place of the range, and which nodes the call may change. */
  lemma DamageStarts<T(0)>(t: Tree<Node<T>>, c: Tree<Node<T>>, i: nat, fs: seq<Tree<Node<T>>>) returns (p: Place<Node<T>>)
    requires 0 < i < |Word(c)| && t == PlugTree(c, i, fs) && Distinct(Word(t)) && Ring(Word(t))
    requires i + |Words(fs)| < |Word(t)| && Word(t)[i + |Words(fs)|].leading && |fs| >= 2
    ensures p.Ok() && p.a == Word(c)[..i] && p.fs == fs && p.Behind() == Word(c)[i..] && Stands(p, Over(0))
    ensures Word(t)[i] == WalkAt(p, Over(0)) && Word(t)[i + |Words(fs)|] == p.Open()
    ensures Decrement(Word(t)[i]) == p.a[i - 1] && p.a[i - 1].node in NodesOf(Word(t))
    ensures NodesOf(Words(fs) + p.Behind()) <= NodesOf(Word(t))
  {
    hide Word, Words, Ring, Distinct, Linked, Count, PlugTree, InsertAt, Reversed, Reversing, Done, Todo;
    ReverseFacts(c, i, fs);
    ReverseStarts(t, c, i, fs);
    p := PlaceOf(c, i, fs);
    AtStart(p);
    assert Word(c)[i - 1] in Word(c);
  }

  /**
   * forest::reverse(first, last) where last is the leading edge of another sibling d and there are
   * two or more siblings fs in the range: the call ends, the siblings are in their old order, and
   * the leading edge of d, with everything below it, has fallen out of the ring.  The links are
   * those of no reversed range, and the forest is no longer well formed.
   */
  method ReverseDamages<T(0)>(f: Forest<T>, first: Iter<T>, last: Iter<T>, ghost c: Tree<Node<T>>, ghost i: nat, ghost fs: seq<Tree<Node<T>>>)
    returns (ghost d: Tree<Node<T>>, ghost rest: seq<Iter<T>>)
    requires f.Valid() && 0 < i < |Word(c)| && f.root == PlugTree(c, i, fs)
    requires i + |Words(fs)| < |f.ring| && first == f.ring[i] && last == f.ring[i + |Words(fs)|]
    requires last.leading && |fs| >= 2
    modifies f.Repr()`leadingNext, f.Repr()`leadingPrior, f.Repr()`trailingNext, f.Repr()`trailingPrior
    ensures d.node == last.node && f.ring == Word(c)[..i] + Words(fs) + (Word(d) + rest)
    ensures Ring(Word(c)[..i] + (Words(fs) + ([Pos(last.node, false)] + rest)))
    ensures !Ring(Word(PlugTree(c, i, Reversed(fs)))) && !Ring(f.ring)
    ensures Increment(Pos(fs[|fs| - 1].node, false)) == last.Pivot()
  {
    hide Word, Words, Ring, Distinct, Linked, Count, PlugTree, InsertAt, Reversed, Reversing, Done, Stands, ResultRun, Todo;
    var prior := Decrement(first);
    ghost var p := DamageStarts(f.root, c, i, fs);
    d, rest := p.d, p.rest;
    PlaceWords(c, i, fs, p);
    InReach(p, Back(|fs|));
    var result := ReverseAppendPast(first, last, p);
    CloseDamaged(prior, result, p);
  }

  // ---- three siblings ------------------------------------------------------------------------

  lemma ThreeSiblings<N>(n: N, x: N, y: N, z: N)
    ensures var a, b, d := Tree(x, []), Tree(y, []), Tree(z, []);
      && PlugTree(Tree(n, [d]), 1, [a, b]) == Tree(n, [a, b] + [d])
      && Word(Tree(n, [d])) == [Pos(n, true), Pos(z, true), Pos(z, false), Pos(n, false)]
      && Words([a, b]) == [Pos(x, true), Pos(x, false), Pos(y, true), Pos(y, false)]
      && Word(Tree(n, [a, b] + [d])) == [Pos(n, true)] + Words([a, b]) + [Pos(z, true), Pos(z, false), Pos(n, false)]
  {
    var a, b, d := Tree(x, []), Tree(y, []), Tree(z, []);
    WordsSingle(a);
    WordsSingle(b);
    WordsSingle(d);
    WordsConcat([a], [b]);
    WordsConcat([a, b], [d]);
    assert [a] + [b] == [a, b];
  }

  method BuildThree<T(0)>(x: T, y: T, z: T) returns (f: Forest<T>, p: Iter<T>, q: Iter<T>, r: Iter<T>)
    ensures f.Valid() && fresh(f) && fresh(f.Repr()) && p.leading && q.leading && r.leading
    ensures f.root == Tree(f.tail, [Tree(p.node, []), Tree(q.node, [])] + [Tree(r.node, [])])
  {
    hide Word, Words, Ring, Distinct, Linked, Count;
    f := new Forest<T>();
    p := Append(f, x);
    q := Append(f, y);
    r := Append(f, z);
    assert f.root.children == [Tree(p.node, []), Tree(q.node, [])] + [Tree(r.node, [])];
  }

  lemma LeafInFront<N>(d: Tree<N>, rest: seq<Pos<N>>, z: N, n: N)
    requires Word(d) + rest == [Pos(z, true), Pos(z, false), Pos(n, false)] && d.node == z != n
    ensures rest == [Pos(n, false)]
  {
    var w := Word(d);
    assert (w + rest)[|w| - 1] == w[|w| - 1] == Pos(z, false);
    assert |w| == 2;
    assert (w + rest)[2..] == rest;
  }

  lemma ThreeLeft<N>(n: N, x: N, y: N, z: N, d: Tree<N>, rest: seq<Pos<N>>)
    requires d.node == z != n
    requires var c, fs := Tree(n, [Tree(z, [])]), [Tree(x, []), Tree(y, [])];
      |Word(c)| == 4 && Word(Tree(n, fs + [Tree(z, [])])) == Word(c)[..1] + Words(fs) + (Word(d) + rest)
    ensures var c, fs := Tree(n, [Tree(z, [])]), [Tree(x, []), Tree(y, [])];
      Word(c)[..1] + (Words(fs) + ([Pos(z, false)] + rest))
      == [Pos(n, true), Pos(x, true), Pos(x, false), Pos(y, true), Pos(y, false), Pos(z, false), Pos(n, false)]
  {
    hide Word, Words, PlugTree;
    ThreeSiblings(n, x, y, z);
    var c, fs := Tree(n, [Tree(z, [])]), [Tree(x, []), Tree(y, [])];
    var w := Word(c)[..1] + Words(fs);
    assert |w| == 5 && (w + (Word(d) + rest))[5..] == Word(d) + rest;
    LeafInFront(d, rest, z, n);
  }

  /** A forest of three leaves whose first two are to be reversed: they stay, and the third is cut. */
  method ReverseThree<T(0)>(f: Forest<T>, p: Iter<T>, q: Iter<T>, last: Iter<T>)
    requires f.Valid() && p.leading && q.leading && last.leading
    requires f.root == Tree(f.tail, [Tree(p.node, []), Tree(q.node, [])] + [Tree(last.node, [])])
    modifies f.Repr()`leadingNext, f.Repr()`leadingPrior, f.Repr()`trailingNext, f.Repr()`trailingPrior
    ensures !Ring(f.ring) && Increment(q.Pivot()) == last.Pivot()
    ensures Ring([f.Root(), p, p.Pivot(), q, q.Pivot(), last.Pivot(), f.End()])
  {
    hide Word, Words, Ring, Distinct, Linked, Count, PlugTree, InsertAt, Reversed;
    ghost var a, b, e := Tree(p.node, []), Tree(q.node, []), Tree(last.node, []);
    ghost var c := Tree(f.tail, [e]);
    ThreeSiblings(f.tail, p.node, q.node, last.node);
    f.NotTheRoot(5);
    ghost var d, rest := ReverseDamages(f, p, last, c, 1, [a, b]);
    ThreeLeft(f.tail, p.node, q.node, last.node, d, rest);
  }
}
