/**
 * The values that a forest holds: size() counts them, and operator== compares them with their
 * shape.
 */
module ForestValues {
  import opened RoseForest
  import opened ForestLinks
  import opened Forests

  // ---- size() -----------------------------------------------------------------------------

  ghost function Leads<N>(s: seq<Pos<N>>): nat {
    if s == [] then 0 else (if s[0].leading then 1 else 0) + Leads(s[1..])
  }

  lemma {:induction false} LeadsConcat<N>(s: seq<Pos<N>>, r: seq<Pos<N>>)
    ensures Leads(s + r) == Leads(s) + Leads(r)
  {
    if s == [] {
      assert s + r == r;
    } else {
      assert (s + r)[1..] == s[1..] + r;
      LeadsConcat(s[1..], r);
    }
  }

  lemma {:induction false} LeadsCount<N>(ts: seq<Tree<N>>)
    ensures Leads(Words(ts)) == Count(ts)
  {
    if ts != [] {
      var t := ts[0];
      LeadsConcat(Word(t), Words(ts[1..]));
      LeadsConcat([Pos(t.node, true)] + Words(t.children), [Pos(t.node, false)]);
      LeadsConcat([Pos(t.node, true)], Words(t.children));
      LeadsCount(t.children);
      LeadsCount(ts[1..]);
    }
  }

  /** The first leading edge from index k on; behind the last position the ring starts again. */
  ghost function NextLead<N>(w: seq<Pos<N>>, k: nat): (j: nat)
    requires k <= |w|
    decreases |w| - k
  {
    if k == |w| then 0 else if w[k].leading then k else NextLead(w, k + 1)
  }

  /** find_edge(x, forest_leading_edge) */
  method FindLeading<T(0)>(f: Forest<T>, x: Iter<T>, ghost k: nat) returns (r: Iter<T>)
    requires f.Valid() && k <= |f.ring| && x == f.ring[if k < |f.ring| then k else 0]
    ensures f.Valid() && NextLead(f.ring, k) < |f.ring| && r == f.ring[NextLead(f.ring, k)]
  {
    hide Word, Ring, Distinct, Count;
    f.RootFirst();
    r := x;
    ghost var j := k;
    while !r.leading
      invariant f.Valid() && k <= j <= |f.ring| && r == f.ring[if j < |f.ring| then j else 0]
      invariant NextLead(f.ring, j) == NextLead(f.ring, k)
      decreases |f.ring| - j
    {
      IncrementSteps(f.root, j);
      r := Increment(r);
      j := j + 1;
    }
  }

  /** Stepping to the next leading edge uses up one leading edge. */
  lemma {:induction false} LeadUsed<N>(w: seq<Pos<N>>, k: nat)
    requires 0 < k <= |w|
    ensures var j := NextLead(w, k); if j == 0 then Leads(w[k..]) == 0 else k <= j < |w| && Leads(w[k..]) == 1 + Leads(w[j + 1..])
    decreases |w| - k
  {
    if k < |w| {
      assert w[k..][1..] == w[k + 1..];
      if !w[k].leading { LeadUsed(w, k + 1); }
    }
  }

  /** size(): the exact number of nodes, recounted over the leading edges when it is not cached. */
  method Size<T(0)>(f: Forest<T>) returns (n: nat)
    requires f.Valid()
    modifies f`size
    ensures f.Valid() && n == f.size == Count(f.root.children) && Contents(f) == old(Contents(f))
  {
    hide Ring, Linked, Distinct, Word, Words, Valued;
    f.EmptyIff();
    if f.SizeValid() {
      n := f.size;
    } else {
      n := Recount(f);
      assert forall o: object :: o in NodesOf(f.ring) ==> o is Node<T>;
      f.size := n;
    }
  }

  /** std::distance between two preorder iterators: from begin() around to the sentinel. */
  method Recount<T(0)>(f: Forest<T>) returns (n: nat)
    requires f.Valid()
    ensures n == Count(f.root.children) && f.Valid()
  {
    hide Word, Ring, Distinct, Count, Leads;
    f.RootFirst();
    ghost var w := f.ring;
    IncrementSteps(f.root, 0);
    ghost var k := 1;
    var first := FindLeading(f, Increment(f.Root()), 1);
    var last := FindLeading(f, f.End(), |w| - 1);
    n := 0;
    LeadsBelow(f.root);
    while first != last
      invariant f.Valid() && 0 < k <= |w| && NextLead(w, k) < |w| && first == w[NextLead(w, k)]
      invariant n + Leads(w[k..]) == Count(f.root.children)
      decreases |w| - k
    {
      LeadUsed(w, k);
      k := NextLead(w, k) + 1;
      IncrementSteps(f.root, k - 1);
      first := FindLeading(f, Increment(first), k);
      n := n + 1;
    }
    LeadUsed(w, k);
    FindDistinct(w, NextLead(w, k));
    FindDistinct(w, 0);
  }

  lemma LeadsBelow<N>(t: Tree<N>)
    ensures Leads(Word(t)[1..]) == Count(t.children)
  {
    LeadsCount(t.children);
    LeadsConcat(Words(t.children), [Pos(t.node, false)]);
    assert Word(t)[1..] == Words(t.children) + [Pos(t.node, false)];
  }

  // ---- the values a forest holds -------------------------------------------------------------

  /** A position as operator== sees it: the value on a leading edge, nothing on a trailing one. */
  datatype Mark<V> = Open(value: V) | Close

  function Marks<V>(ts: seq<Tree<V>>): seq<Mark<V>> {
    if ts == [] then [] else [Open(ts[0].node)] + Marks(ts[0].children) + [Close] + Marks(ts[1..])
  }

  lemma MarksStart<V>(ts: seq<Tree<V>>, s: seq<Mark<V>>)
    requires ts != []
    ensures Marks(ts) + s == [Open(ts[0].node)] + (Marks(ts[0].children) + ([Close] + (Marks(ts[1..]) + s)))
  {
  }

  /** Forests with the same marks are equal. */
  lemma {:induction false} MarksDetermine<V>(ts: seq<Tree<V>>, us: seq<Tree<V>>, s: seq<Mark<V>>, r: seq<Mark<V>>)
    requires Marks(ts) + s == Marks(us) + r
    requires (s == [] || s[0].Close?) && (r == [] || r[0].Close?)
    ensures ts == us && s == r
    decreases ts
  {
    assert ts == [] ==> Marks(ts) + s == s;
    assert us == [] ==> Marks(us) + r == r;
    if ts != [] { MarksStart(ts, s); assert (Marks(ts) + s)[0].Open?; }
    if us != [] { MarksStart(us, r); assert (Marks(us) + r)[0].Open?; }
    if ts != [] && us != [] {
      var s', r' := [Close] + (Marks(ts[1..]) + s), [Close] + (Marks(us[1..]) + r);
      assert Marks(ts[0].children) + s' == (Marks(ts) + s)[1..] == (Marks(us) + r)[1..] == Marks(us[0].children) + r';
      assert (Marks(ts) + s)[0] == (Marks(us) + r)[0];
      MarksDetermine(ts[0].children, us[0].children, s', r');
      assert s'[1..] == Marks(ts[1..]) + s && r'[1..] == Marks(us[1..]) + r;
      MarksDetermine(ts[1..], us[1..], s, r);
    }
  }

  lemma SameMarks<V>(ts: seq<Tree<V>>, us: seq<Tree<V>>)
    ensures Marks(ts) == Marks(us) <==> ts == us
  {
    if Marks(ts) == Marks(us) {
      assert Marks(ts) + [] == Marks(us) + [];
      MarksDetermine(ts, us, [], []);
    }
  }

  /** The data of a set of nodes. */
  ghost function Data<T(0)>(ns: set<Node<T>>): map<Node<T>, T>
    reads ns
  {
    map n | n in ns :: n.data
  }

  ghost predicate Covers<N, V>(m: map<N, V>, ps: seq<Pos<N>>) { forall i :: 0 <= i < |ps| ==> ps[i].node in m }

  lemma {:induction false} CoversParts<N, V>(m: map<N, V>, ts: seq<Tree<N>>)
    requires Covers(m, Words(ts)) && ts != []
    ensures ts[0].node in m && Covers(m, Words(ts[0].children)) && Covers(m, Words(ts[1..]))
  {
    var t, w := ts[0], Words(ts);
    var a := Words(t.children);
    assert Words(ts) == Word(t) + Words(ts[1..]) && Word(t) == [Pos(t.node, true)] + a + [Pos(t.node, false)];
    assert w[0].node in m;
    assert forall i :: 0 <= i < |a| ==> a[i] == w[i + 1];
    assert forall i :: 0 <= i < |Words(ts[1..])| ==> Words(ts[1..])[i] == w[i + |a| + 2];
  }

  /** The forest with every node replaced by its value. */
  ghost function Valued<N, V>(ts: seq<Tree<N>>, m: map<N, V>): seq<Tree<V>>
    requires Covers(m, Words(ts))
  {
    if ts == [] then []
    else
      CoversParts(m, ts);
      [Tree(m[ts[0].node], Valued(ts[0].children, m))] + Valued(ts[1..], m)
  }

  function MarkOf<N, V>(p: Pos<N>, m: map<N, V>): Mark<V>
    requires p.node in m
  {
    if p.leading then Open(m[p.node]) else Close
  }

  ghost function MarksOf<N, V>(ps: seq<Pos<N>>, m: map<N, V>): seq<Mark<V>>
    requires Covers(m, ps)
  {
    seq(|ps|, i requires 0 <= i < |ps| => MarkOf(ps[i], m))
  }

  /** The marks of the values are read off the traversal, position by position. */
  lemma {:induction false} ValuedMarks<N, V>(ts: seq<Tree<N>>, m: map<N, V>)
    requires Covers(m, Words(ts))
    ensures Marks(Valued(ts, m)) == MarksOf(Words(ts), m)
  {
    if ts != [] {
      var t := ts[0];
      CoversParts(m, ts);
      ValuedMarks(t.children, m);
      ValuedMarks(ts[1..], m);
      var v := Valued(ts, m);
      assert v[0] == Tree(m[t.node], Valued(t.children, m)) && v[1..] == Valued(ts[1..], m);
      assert Words(ts) == [Pos(t.node, true)] + Words(t.children) + [Pos(t.node, false)] + Words(ts[1..]);
    }
  }

  /** What a forest holds. */
  ghost function Contents<T(0)>(f: Forest<T>): seq<Tree<T>>
    requires f.Valid()
    reads f, f.Repr()
  {
    BelowRoot(f);
    Valued(f.root.children, Data(f.Repr()))
  }

  lemma BelowRoot<T(0)>(f: Forest<T>)
    requires f.Valid()
    ensures Covers(Data(f.Repr()), Words(f.root.children)) && |Words(f.root.children)| == |f.ring| - 2
    ensures forall i :: 0 <= i < |Words(f.root.children)| ==> Words(f.root.children)[i] == f.ring[i + 1]
  {
    var w, c := f.ring, Words(f.root.children);
    assert w == [Pos(f.tail, true)] + c + [Pos(f.tail, false)];
    forall i | 0 <= i < |c| ensures c[i].node in Data(f.Repr()) {
      assert c[i] == w[i + 1] && w[i + 1] in w;
    }
  }

  // ---- operator== ----------------------------------------------------------------------------

  ghost predicate SameMark<T(0)>(p: Iter<T>, q: Iter<T>)
    reads p.node, q.node
  {
    p.leading == q.leading && (p.leading ==> p.node.data == q.node.data)
  }

  /** Equal forests are walked in step; the first position that differs tells them apart. */
  lemma ContentsAgree<T(0)>(x: Forest<T>, y: Forest<T>)
    requires x.Valid() && y.Valid()
    ensures Contents(x) == Contents(y) <==>
      |x.ring| == |y.ring| && forall i :: 0 < i < |x.ring| - 1 ==> SameMark(x.ring[i], y.ring[i])
  {
    hide Word, Words, Ring, Distinct, Count, Valued, Marks;
    BelowRoot(x);
    BelowRoot(y);
    var a, b := Words(x.root.children), Words(y.root.children);
    var m, n := Data(x.Repr()), Data(y.Repr());
    ValuedMarks(x.root.children, m);
    ValuedMarks(y.root.children, n);
    SameMarks(Contents(x), Contents(y));
    assert forall i :: 0 <= i < |a| && i < |b| ==> (MarkOf(a[i], m) == MarkOf(b[i], n) <==> SameMark(x.ring[i + 1], y.ring[i + 1]));
    if |a| == |b| && MarksOf(a, m) == MarksOf(b, n) {
      forall i | 0 < i < |x.ring| - 1 ensures SameMark(x.ring[i], y.ring[i]) {
        assert MarksOf(a, m)[i - 1] == MarksOf(b, n)[i - 1];
      }
    }
    if |x.ring| == |y.ring| && forall i :: 0 < i < |x.ring| - 1 ==> SameMark(x.ring[i], y.ring[i]) {
      assert MarksOf(a, m) == MarksOf(b, n);
    }
    assert Contents(x) == Contents(y) ==> |MarksOf(a, m)| == |MarksOf(b, n)|;
  }

  lemma RingSize<T(0)>(f: Forest<T>)
    requires f.Valid()
    ensures |f.ring| == 2 * Count(f.root.children) + 2
  {
    TwoPositionsPerNode(f.root.children);
  }

  /** operator== holds exactly when the two forests hold the same values in the same shape. */
  method Equal<T(0, ==)>(x: Forest<T>, y: Forest<T>) returns (equal: bool)
    requires x.Valid() && y.Valid()
    modifies x`size, y`size
    ensures x.Valid() && y.Valid() && (equal <==> Contents(x) == Contents(y))
    ensures Contents(x) == old(Contents(x)) && Contents(y) == old(Contents(y))
  {
    hide Word, Words, Ring, Distinct, Count, Linked, Valued;
    var n := Size(x);
    assert forall o: object :: o in NodesOf(y.ring) ==> o is Node<T>;
    var m := Size(y);
    assert forall o: object :: o in NodesOf(x.ring) ==> o is Node<T>;
    RingSize(x);
    RingSize(y);
    if n != m {
      equal := false;
    } else {
      equal := Walk(x, y);
    }
    ContentsAgree(x, y);
  }

  method Walk<T(0, ==)>(x: Forest<T>, y: Forest<T>) returns (equal: bool)
    requires x.Valid() && y.Valid() && |x.ring| == |y.ring|
    ensures x.Valid() && y.Valid() && (equal <==> forall i :: 0 < i < |x.ring| - 1 ==> SameMark(x.ring[i], y.ring[i]))
  {
    hide Word, Words, Ring, Distinct, Count, Linked;
    x.RootFirst();
    y.RootFirst();
    ghost var k := 1;
    IncrementSteps(x.root, 0);
    IncrementSteps(y.root, 0);
    var first, pos := Increment(x.Root()), Increment(y.Root());
    while first != x.End()
      invariant x.Valid() && y.Valid() && 0 < k < |x.ring| && first == x.ring[k] && pos == y.ring[k]
      invariant forall i :: 0 < i < k ==> SameMark(x.ring[i], y.ring[i])
      decreases |x.ring| - k
    {
      FindDistinct(x.ring, |x.ring| - 1);
      if first.leading != pos.leading { return false; }
      if first.leading && first.node.data != pos.node.data { return false; }
      IncrementSteps(x.root, k);
      IncrementSteps(y.root, k);
      first, pos, k := Increment(first), Increment(pos), k + 1;
    }
    EndIsLast(x, k);
    return true;
  }

  lemma EndIsLast<T(0)>(f: Forest<T>, k: nat)
    requires f.Valid() && k < |f.ring| && f.ring[k] == f.End()
    ensures k == |f.ring| - 1
  {
    DistinctByIndex(f.ring);
    f.RootFirst();
  }
}
