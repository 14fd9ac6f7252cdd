/**
 * The ownership tree of all nodes: base_node.hpp and base_node.cpp on top of the forest.
 */
module RosePaths {
  import opened RoseForest

  /** The nodes from the top of the forest down to the node whose leading edge is position i. */
  ghost function Path<N>(ts: seq<Tree<N>>, i: nat): (path: seq<N>)
    requires i < |Words(ts)| && Words(ts)[i].leading
    ensures path != [] && path[|path| - 1] == Words(ts)[i].node
    decreases ts
  {
    var m := |Word(ts[0])|;
    if i == 0 then [ts[0].node]
    else if i < m then
      assert Words(ts)[i] == Word(ts[0])[i] == Words(ts[0].children)[i - 1];
      [ts[0].node] + Path(ts[0].children, i - 1)
    else Path(ts[1..], i - m)
  }

  /** The last node but one of a path below the node up. */
  ghost function ParentIn<N>(up: N, path: seq<N>): N
    requires path != []
  {
    if |path| == 1 then up else path[|path| - 2]
  }

  lemma AtFirst<N>(ts: seq<Tree<N>>)
    requires ts != []
    ensures Words(ts) == Word(ts[0]) + Words(ts[1..])
    ensures Words(ts)[0] == Pos(ts[0].node, true)
    ensures Path(ts, 0) == [ts[0].node] && SubtreeAt(ts, 0) == ts[0]
  {
  }

  lemma InsideFirst<N>(ts: seq<Tree<N>>, i: nat)
    requires ts != [] && 0 < i <= |Word(ts[0])| - 1
    ensures |Words(ts)| == |Word(ts[0])| + |Words(ts[1..])| && |Word(ts[0])| == |Words(ts[0].children)| + 2
    ensures Words(ts)[i] == Word(ts[0])[i] == (Words(ts[0].children) + [Pos(ts[0].node, false)])[i - 1]
    ensures Words(ts)[i].leading ==>
      && i - 1 < |Words(ts[0].children)| && Words(ts[0].children)[i - 1] == Words(ts)[i]
      && Path(ts, i) == [ts[0].node] + Path(ts[0].children, i - 1)
      && SubtreeAt(ts, i) == SubtreeAt(ts[0].children, i - 1)
  {
  }

  lemma BehindFirst<N>(ts: seq<Tree<N>>, i: nat)
    requires ts != [] && |Word(ts[0])| <= i < |Words(ts)|
    ensures |Words(ts)| == |Word(ts[0])| + |Words(ts[1..])|
    ensures Words(ts)[i] == Words(ts[1..])[i - |Word(ts[0])|]
    ensures Words(ts)[i].leading ==>
      && Path(ts, i) == Path(ts[1..], i - |Word(ts[0])|)
      && SubtreeAt(ts, i) == SubtreeAt(ts[1..], i - |Word(ts[0])|)
  {
  }

  /** The position behind the subtree at i, in the word closed by the edge of the node up. */
  ghost function Behind<N>(ts: seq<Tree<N>>, up: N, e: nat): Pos<N>
    requires e <= |Words(ts)|
  {
    if e < |Words(ts)| then Words(ts)[e] else Pos(up, false)
  }

  ghost predicate FollowsOn<N>(ts: seq<Tree<N>>, up: N, path: seq<N>, e: nat)
    requires path != []
  {
    && e <= |Words(ts)|
    && var next := Behind(ts, up, e);
    && (next.leading ==> Path(ts, e) == path[..|path| - 1] + [next.node])
    && (!next.leading ==> next.node == ParentIn(up, path))
  }

  /**
   * What follows a subtree is the next sibling, with the same parent, or the trailing edge
   * of the parent.
   */
  lemma {:induction false} AfterSubtree<N>(ts: seq<Tree<N>>, up: N, i: nat)
    requires i < |Words(ts)| && Words(ts)[i].leading
    ensures FollowsOn(ts, up, Path(ts, i), i + |Word(SubtreeAt(ts, i))|)
    decreases ts
  {
    hide Path, Words, Word, SubtreeAt;
    EmptyWord<N>();
    if i == 0 {
      AtFirst(ts);
      NextSibling(ts, up);
    } else if i < |Word(ts[0])| {
      InsideFirst(ts, i);
      AfterSubtree(ts[0].children, ts[0].node, i - 1);
      InsideFirst(ts, i + |Word(SubtreeAt(ts, i))|);
    } else {
      BehindFirst(ts, i);
      AfterSubtree(ts[1..], up, i - |Word(ts[0])|);
      var e := i + |Word(SubtreeAt(ts, i))|;
      if e < |Words(ts)| { BehindFirst(ts, e); }
    }
  }

  lemma NextSibling<N>(ts: seq<Tree<N>>, up: N)
    requires ts != []
    ensures FollowsOn(ts, up, [ts[0].node], |Word(ts[0])|)
  {
    hide Path, Words, Word, SubtreeAt;
    AtFirst(ts);
    if ts[1..] != [] {
      AtFirst(ts[1..]);
      BehindFirst(ts, |Word(ts[0])|);
    } else {
      EmptyWord<N>();
    }
  }

  lemma EmptyWord<N>()
    ensures Words<N>([]) == []
  {
  }

  /** Every prefix of a path is the path of the node it ends in. */
  lemma {:induction false} ParentPath<N>(ts: seq<Tree<N>>, i: nat) returns (k: nat)
    requires i < |Words(ts)| && Words(ts)[i].leading && |Path(ts, i)| > 1
    ensures k < i && Words(ts)[k].leading && Path(ts, k) == Path(ts, i)[..|Path(ts, i)| - 1]
    decreases ts
  {
    hide Path, Words, Word, SubtreeAt;
    EmptyWord<N>();
    AtFirst(ts);
    if i < |Word(ts[0])| {
      InsideFirst(ts, i);
      k := 0;
      if |Path(ts, i)| > 2 {
        k := ParentPath(ts[0].children, i - 1);
        k := k + 1;
        InsideFirst(ts, k);
      }
    } else {
      BehindFirst(ts, i);
      k := ParentPath(ts[1..], i - |Word(ts[0])|);
      k := k + |Word(ts[0])|;
      BehindFirst(ts, k);
    }
  }
}

module BaseNodes {
  import opened RoseForest
  import opened ForestLinks
  import opened Forests
  import opened ForestOperations
  import opened RosePaths

  /** The path of the k-th position of a tree, which is a leading edge below the root. */
  ghost function PathAt<N>(t: Tree<N>, k: nat): (path: seq<N>)
    requires 0 < k < |Word(t)| && Word(t)[k].leading
    ensures path != [] && path[|path| - 1] == Word(t)[k].node
  {
    assert Word(t)[k] == Words(t.children)[k - 1];
    Path(t.children, k - 1)
  }

  lemma InnerIndex<N>(t: Tree<N>, k: nat)
    requires 0 < k < |Word(t)|
    ensures |Word(t)| == |Words(t.children)| + 2 && Word(t)[k] == Behind(t.children, t.node, k - 1)
  {
  }

  /** Position q is a node with the parent that path ends below, or that parent's trailing edge. */
  ghost predicate Beside<N>(t: Tree<N>, path: seq<N>, q: nat)
    requires path != []
  {
    && 0 < q < |Word(t)|
    && if Word(t)[q].leading then PathAt(t, q) == path[..|path| - 1] + [Word(t)[q].node]
       else Word(t)[q].node == ParentIn(t.node, path)
  }

  /** One round of find_parent: behind a node stands its next sibling or its parent's trailing edge. */
  lemma NextBeside<N>(t: Tree<N>, path: seq<N>, k: nat, e: nat)
    requires path != [] && Distinct(Word(t)) && Beside(t, path, k) && Word(t)[k].leading
    requires e < |Word(t)| && Word(t)[e] == Word(t)[k].Pivot()
    ensures k < e && Beside(t, path, e + 1)
  {
    hide Word, Words, Path, SubtreeAt, Distinct;
    InnerIndex(t, k);
    var s, a, b := SubtreeRun(t, k);
    SubtreeEnd(Word(t), a, s, b, e);
    AfterSubtree(t.children, t.node, k - 1);
    InnerIndex(t, e + 1);
  }

  lemma SubtreeEnd<N>(w: seq<Pos<N>>, a: seq<Pos<N>>, s: Tree<N>, b: seq<Pos<N>>, e: nat)
    requires w == a + Word(s) + b && Distinct(w) && e < |w| && w[e] == Pos(s.node, false)
    ensures e == |a| + |Word(s)| - 1
  {
    assert w[|a| + |Word(s)| - 1] == Word(s)[|Word(s)| - 1];
    DistinctByIndex(w);
  }

  /** find_parent: the trailing edge of the parent, or the end of the forest. */
  method FindParent<T(0)>(f: Forest<T>, start: Iter<T>) returns (parent: Iter<T>)
    requires f.Valid() && start in f.ring && start.node != f.tail
    ensures LeadingOf(start) in f.ring
    ensures var k := Find(f.ring, LeadingOf(start));
            0 < k && parent == Pos(ParentIn(f.tail, PathAt(f.root, k)), false)
    ensures f.Valid() && parent in f.ring
  {
    hide Word, Words, Ring, Distinct, Find, Path, Beside, PathAt;
    ghost var k, e := EdgesOf(f.root, start);
    ghost var path := PathAt(f.root, k);
    BesideItself(f.root, k);
    parent, k := PassSubtree(f, start, path, k);
    while parent.leading
      invariant f.Valid() && Beside(f.root, path, k) && k < |f.ring| && parent == f.ring[k] && parent in f.ring
      decreases |f.ring| - k
    {
      parent, k := PassSubtree(f, parent, path, k);
    }
    BesideParent(f.root, path, k);
  }

  lemma EdgesOf<N>(t: Tree<N>, p: Pos<N>) returns (k: nat, e: nat)
    requires Distinct(Word(t)) && p in Word(t) && p.node != t.node
    ensures LeadingOf(p) in Word(t) && k == Find(Word(t), LeadingOf(p))
    ensures 0 < k < e < |Word(t)| && Word(t)[k] == LeadingOf(p) && Word(t)[e] == TrailingOf(p)
  {
    hide *;
    k, e := NodeInRing(t, p);
  }

  /** i = trailing_of(i); ++i */
  method PassSubtree<T(0)>(f: Forest<T>, p: Iter<T>, ghost path: seq<Node<T>>, ghost k: nat) returns (next: Iter<T>, ghost k': nat)
    requires f.Valid() && path != [] && Beside(f.root, path, k) && k < |f.ring| && f.ring[k] == LeadingOf(p)
    ensures f.Valid() && k < k' < |f.ring| && Beside(f.root, path, k') && next == f.ring[k'] && next in f.ring
  {
    hide Word, Words, Ring, Distinct, Find, Path, Beside, PathAt;
    BesideInside(f.root, path, k);
    f.NotTheRoot(k);
    ghost var l, e := EdgesOf(f.root, LeadingOf(p));
    FindDistinct(f.ring, k);
    NextBeside(f.root, path, k, e);
    IncrementSteps(f.root, e);
    k' := e + 1;
    next := Increment(TrailingOf(p));
  }

  lemma BesideItself<N>(t: Tree<N>, k: nat)
    requires 0 < k < |Word(t)| && Word(t)[k].leading
    ensures PathAt(t, k) != [] && Beside(t, PathAt(t, k), k)
  {
    hide Path, Word, Words;
    InnerIndex(t, k);
    var path := PathAt(t, k);
    assert path == path[..|path| - 1] + [path[|path| - 1]];
  }

  lemma BesideInside<N>(t: Tree<N>, path: seq<N>, k: nat)
    requires path != [] && Beside(t, path, k)
    ensures 0 < k < |Word(t)| && (Word(t)[k].leading ==> k < |Word(t)| - 1)
  {
  }

  lemma BesideParent<N>(t: Tree<N>, path: seq<N>, k: nat)
    requires path != [] && Beside(t, path, k) && !Word(t)[k].leading
    ensures Word(t)[k].node == ParentIn(t.node, path)
  {
  }

  // ---- full_name ------------------------------------------------------------------------

  /** What a tree node carries: its unique id and its human readable name. */
  datatype Info = Info(id: nat, name: string)

  const NAME_SEPARATOR := "."

  /** The names from the root down to a node, separated by dots. */
  ghost function Dotted(names: seq<string>): string
    requires names != []
  {
    if |names| == 1 then names[0] else names[0] + NAME_SEPARATOR + Dotted(names[1..])
  }

  ghost function Names(path: seq<Node<Info>>): (names: seq<string>)
    reads path
    ensures |names| == |path|
  {
    seq(|path|, i requires 0 <= i < |path| reads path => path[i].data.name)
  }

  /** Position k is the leading edge of the node with the id: the first position, from begin() on, that has it. */
  ghost predicate HasId(f: Forest<Info>, id: nat, k: nat)
    requires f.Valid()
    reads f, f.Repr()
  {
    && 0 < k < |f.ring| - 1 && f.ring[k].leading && f.ring[k] in f.ring && f.ring[k].node.data.id == id
    && forall j :: 0 < j < k ==> f.ring[j] in f.ring && f.ring[j].node.data.id != id
  }

  /** If any position has the id, one is the first, and it is a leading edge. */
  lemma {:induction false} SomeHasId(f: Forest<Info>, id: nat, there: nat) returns (k: nat)
    requires f.Valid() && 0 < there < |f.ring| - 1 && f.ring[there].node.data.id == id
    ensures HasId(f, id, k) && k <= there
    decreases there
  {
    hide Word, Ring, Distinct, Count;
    if j: nat :| 0 < j < there && f.ring[j].node.data.id == id {
      k := SomeHasId(f, id, j);
    } else {
      k := there;
      f.NotTheRoot(k);
      var l, e := EdgesOf(f.root, f.ring[k]);
      FindDistinct(f.ring, k);
      FindDistinct(f.ring, e);
      assert f.ring[l].node == f.ring[k].node;
    }
  }

  /** find_self: the trailing edge of the node with the id. */
  method FindSelf(f: Forest<Info>, id: nat, ghost k: nat) returns (self: Iter<Info>)
    requires f.Valid() && HasId(f, id, k)
    ensures f.Valid() && self == TrailingOf(f.ring[k])
  {
    hide Word, Ring, Distinct, Count;
    f.RootFirst();
    IncrementSteps(f.root, 0);
    ghost var at := 1;
    var walk := Increment(f.Root());
    while walk != f.End() && walk.node.data.id != id
      invariant 0 < at <= k && walk == f.ring[at] && f.Valid() && HasId(f, id, k)
      decreases k - at
    {
      IncrementSteps(f.root, at);
      walk := Increment(walk);
      at := at + 1;
    }
    f.NotTheRoot(at);
    self := TrailingOf(walk);
  }

  /** The ancestors of a node: each has the path that leads to it. */
  lemma {:induction false} AncestorAt<N>(t: Tree<N>, k: nat, j: nat) returns (a: nat)
    requires Distinct(Word(t)) && 0 < k < |Word(t)| && Word(t)[k].leading && j < |PathAt(t, k)|
    ensures 0 < a <= k && Word(t)[a] == Pos(PathAt(t, k)[j], true) && PathAt(t, a) == PathAt(t, k)[..j + 1]
    decreases k
  {
    hide Word, Words, Path, Distinct;
    InnerIndex(t, k);
    var path := PathAt(t, k);
    if j == |path| - 1 {
      a := k;
      assert path[..j + 1] == path;
    } else {
      var up := ParentPath(t.children, k - 1);
      InnerIndex(t, up + 1);
      a := AncestorAt(t, up + 1, j);
      assert path[..|path| - 1][..j + 1] == path[..j + 1];
    }
  }

  lemma PathBelowRoot<N>(t: Tree<N>, k: nat)
    requires Distinct(Word(t)) && 0 < k < |Word(t)| && Word(t)[k].leading
    ensures forall j :: 0 <= j < |PathAt(t, k)| ==> PathAt(t, k)[j] != t.node
  {
    DistinctByIndex(Word(t));
    forall j | 0 <= j < |PathAt(t, k)|
      ensures PathAt(t, k)[j] != t.node
    {
      hide Word, PathAt, Distinct;
      var a := AncestorAt(t, k, j);
    }
  }

  /** The names that stand on the stack after j ancestors, nearest first. */
  ghost predicate Stacked(stack: seq<string>, path: seq<Node<Info>>)
    reads path
  {
    |stack| < |path| && forall i :: 0 <= i < |stack| ==> stack[i] == path[|path| - 2 - i].data.name
  }

  /** The first loop of full_name: pushes the names of parent, grandparent and so on. */
  method AncestorNames(f: Forest<Info>, position: Iter<Info>, ghost k: nat) returns (stack: seq<string>)
    requires f.Valid() && 0 < k < |f.ring| - 1 && f.ring[k].leading && position == TrailingOf(f.ring[k])
    ensures Stacked(stack, PathAt(f.root, k)) && |stack| == |PathAt(f.root, k)| - 1
  {
    hide Word, Words, Ring, Distinct, Find, Path, PathAt, Count;
    ghost var path := PathAt(f.root, k);
    PathBelowRoot(f.root, k);
    stack := [];
    f.NotTheRoot(k);
    FindDistinct(f.ring, k);
    ghost var l, e := EdgesOf(f.root, f.ring[k]);
    assert path[..|path|] == path;
    var parent := FindParent(f, position);
    while parent != f.End()
      invariant f.Valid() && Stacked(stack, path)
      invariant parent in f.ring && parent == Pos(ParentIn(f.tail, path[..|path| - |stack|]), false)
      decreases |path| - |stack|
    {
      ghost var a := AncestorAt(f.root, k, |path| - |stack| - 2);
      FindDistinct(f.ring, a);
      stack := stack + [parent.node.data.name];
      assert Stacked(stack, path);
      parent := FindParent(f, parent);
      assert Stacked(stack, path);
    }
  }

  lemma DottedStep(full: string, names: seq<string>, r: nat)
    requires r + 1 < |names|
    ensures full + Dotted(names[r..]) == full + (names[r] + ".") + Dotted(names[r + 1..])
  {
    assert names[r..][1..] == names[r + 1..];
  }

  lemma DottedLast(names: seq<string>)
    requires names != []
    ensures Dotted(names[|names| - 1..]) == names[|names| - 1]
  {
  }

  /** The second loop of full_name: pops the names of the ancestors, the root's first. */
  method JoinNames(ancestors: seq<string>, own: string, ghost names: seq<string>) returns (full: string)
    requires |ancestors| + 1 == |names| && own == names[|names| - 1]
    requires forall i :: 0 <= i < |ancestors| ==> ancestors[i] == names[|names| - 2 - i]
    ensures full == Dotted(names)
  {
    hide Dotted;
    var stack := ancestors;
    full := "";
    ghost var r := 0;
    assert names[0..] == names;
    while stack != []
      invariant r + |stack| == |names| - 1 && stack == ancestors[..|stack|]
      invariant full + Dotted(names[r..]) == Dotted(names)
    {
      DottedStep(full, names, r);
      full := full + (stack[|stack| - 1] + NAME_SEPARATOR);
      stack := stack[..|stack| - 1];
      r := r + 1;
    }
    DottedLast(names);
    full := full + own;
  }

  /** full_name: the names of the ancestors from the root down, and the node's own. */
  method FullName(f: Forest<Info>, id: nat, ghost k: nat) returns (full: string)
    requires f.Valid() && HasId(f, id, k)
    ensures full == Dotted(Names(PathAt(f.root, k)))
  {
    hide Word, Words, Ring, Distinct, Path, PathAt, Count, Dotted;
    var position := FindSelf(f, id, k);
    var stack := AncestorNames(f, position, k);
    full := JoinNames(stack, position.node.data.name, Names(PathAt(f.root, k)));
  }

  // ---- add_child and erase_with_subtree ---------------------------------------------------

  /** A leaf put in front of a trailing edge is a child of that edge's node. */
  lemma LastChildOf<N>(t: Tree<N>, k: nat, n: N)
    requires 0 < k < |Word(t)| && !Word(t)[k].leading && Distinct(Word(t))
    requires forall p :: p in Word(t) ==> p.node != n
    ensures var u := PlugTree(t, k, [Tree(n, [])]);
      && |Word(u)| == |Word(t)| + 2 && Word(u)[k] == Pos(n, true) && Distinct(Word(u))
      && ParentIn(t.node, PathAt(u, k)) == Word(t)[k].node
  {
    hide Word, Words, PlugTree, Distinct, Path, PathAt, InsertAt, Beside;
    var u := PlugTree(t, k, [Tree(n, [])]);
    PlugLeaf(t, k, n);
    PlugFacts(t, k, [Tree(n, [])]);
    InsertInside(Word(t), k, Pos(n, true), Pos(n, false), []);
    LeafBehind(Word(t), k, Pos(n, true), Pos(n, false));
    BesideItself(u, k);
    NextBeside(u, PathAt(u, k), k, k + 1);
    BesideParent(u, PathAt(u, k), k + 2);
  }

  lemma LeafBehind<A>(w: seq<A>, k: nat, x: A, y: A)
    requires k < |w|
    ensures |InsertAt(w, k, [x, y])| == |w| + 2 && InsertAt(w, k, [x, y])[k + 2] == w[k]
  {
  }

  /** add_child: the new node becomes the last child of self, and find_parent finds self from it. */
  method AddChild<T(0)>(f: Forest<T>, self: Iter<T>, x: T) returns (child: Iter<T>)
    requires f.Valid() && self in f.ring && !self.leading && self.node != f.tail
    modifies f, f.Repr()`leadingNext, f.Repr()`leadingPrior, f.Repr()`trailingNext, f.Repr()`trailingPrior
    ensures f.Valid() && fresh(child.node) && !child.leading && child.node.data == x
    ensures 0 < old(Find(f.ring, self)) && f.root == PlugTree(old(f.root), old(Find(f.ring, self)), [Tree(child.node, [])])
    ensures LeadingOf(child) in f.ring && 0 < Find(f.ring, LeadingOf(child))
    ensures ParentIn(f.tail, PathAt(f.root, Find(f.ring, LeadingOf(child)))) == self.node
  {
    hide Word, Words, Ring, Distinct, Find, Path, PathAt, Count, PlugTree;
    ghost var t, w := f.root, f.ring;
    f.RootFirst();
    var leading := f.Insert(self, x);
    assert forall k :: 0 <= k < |w| ==> w[k].node != leading.node;
    LastChildOf(t, Find(w, self), leading.node);
    FindDistinct(f.ring, Find(w, self));
    child := TrailingOf(leading);
  }

  /** A stretch that holds both edges of each of its nodes vanishes whole. */
  lemma {:induction false} KeepNothing<N>(s: seq<Pos<N>>, w: seq<Pos<N>>)
    requires forall p :: p in s ==> p.Pivot() in w
    ensures Keep(s, w) == []
  {
    if s != [] {
      assert s == s[..|s| - 1] + [s[|s| - 1]];
      KeepNothing(s[..|s| - 1], w);
    }
  }

  /** The tree without the subtree whose leading edge is position k. */
  ghost function Pruned<N>(t: Tree<N>, k: nat): Tree<N>
    requires 0 < k < |Word(t)| && Word(t)[k].leading
  {
    assert Word(t)[k] == Words(t.children)[k - 1];
    Tree(t.node, Without(t.children, k - 1))
  }

  lemma NotTheRoot<N>(t: Tree<N>, k: nat)
    requires Distinct(Word(t)) && 0 < k < |Word(t)| && Word(t)[k].leading
    ensures Word(t)[k].node != t.node && Word(t)[|Word(t)| - 1].node == t.node
  {
    hide Words, Distinct;
    DistinctByIndex(Word(t));
    assert Word(t)[0] == Pos(t.node, true);
  }

  lemma KeepNoSubtree<N>(s: Tree<N>)
    ensures Keep(Word(s), Word(s)) == []
  {
    hide Word, Words, Keep;
    forall p | p in Word(s)
      ensures p.Pivot() in Word(s)
    {
      WordsSingle(s);
      BothEdges([s], p);
    }
    KeepNothing(Word(s), Word(s));
  }

  lemma PrunedWord<N>(t: Tree<N>, k: nat, e: nat)
    requires Distinct(Word(t)) && 0 < k < |Word(t)| && Word(t)[k].leading
    requires e < |Word(t)| && Word(t)[e] == Word(t)[k].Pivot()
    ensures k < e && e + 1 < |Word(t)|
    ensures Word(Pruned(t, k)) == Word(t)[..k] + Word(t)[e + 1..]
    ensures Keep(Word(t)[k..e + 1], Word(t)[k..e + 1]) == []
  {
    hide Word, Words, Distinct, Keep, Without, SubtreeAt;
    InnerIndex(t, k);
    var s, a, b := SubtreeRun(t, k);
    SubtreeEnd(Word(t), a, s, b, e);
    NotTheRoot(t, k);
    ThreeParts(Word(t), a, Word(s), b);
    KeepNoSubtree(s);
  }

  lemma ThreeParts<A>(w: seq<A>, a: seq<A>, m: seq<A>, b: seq<A>)
    requires w == a + m + b
    ensures w[..|a|] == a && w[|a|..|a| + |m|] == m && w[|a| + |m|..] == b
  {
  }

  lemma BehindIsParent<N>(t: Tree<N>, k: nat, e: nat)
    requires Distinct(Word(t)) && 0 < k < |Word(t)| && Word(t)[k].leading
    requires e + 1 < |Word(t)| && Word(t)[e] == Word(t)[k].Pivot()
    ensures Word(t)[e + 1] == Pos(ParentIn(t.node, PathAt(t, k)), false) <==> !Word(t)[e + 1].leading
  {
    hide Word, Distinct, PathAt, Beside;
    BesideItself(t, k);
    NextBeside(t, PathAt(t, k), k, e);
    if !Word(t)[e + 1].leading { BesideParent(t, PathAt(t, k), e + 1); }
  }

  /**
   * erase_with_subtree: removes the node and everything below it and returns the position
   * just behind it.  That is the trailing edge of the parent exactly when no sibling follows
   * the node, as the position behind its trailing edge tells before the call.
   */
  method EraseWithSubtree<T(0)>(f: Forest<T>, position: Iter<T>) returns (result: Iter<T>)
    requires f.Valid() && position in f.ring && position.node != f.tail
    modifies f, f.Repr()`leadingNext, f.Repr()`leadingPrior, f.Repr()`trailingNext, f.Repr()`trailingPrior
    ensures f.Valid()
    ensures old(LeadingOf(position) in f.ring && TrailingOf(position) in f.ring)
    ensures var k := old(Find(f.ring, LeadingOf(position))); var e := old(Find(f.ring, TrailingOf(position)));
      && 0 < k < e < |old(f.ring)| - 1 && old(Word(f.root)[k].leading)
      && f.root == Pruned(old(f.root), k)
      && result == old(f.ring)[e + 1] == old(Increment(TrailingOf(position)))
      && (result == Pos(ParentIn(f.tail, PathAt(old(f.root), k)), false) <==> !old(Increment(TrailingOf(position))).leading)
  {
    hide Word, Words, Ring, Distinct, Find, Path, PathAt, Pruned, Keep;
    ghost var t, w := f.root, f.ring;
    ghost var k, e := EdgesOf(t, position);
    PrunedWord(t, k, e);
    FindDistinct(w, e);
    FindDistinct(w, e + 1);
    IncrementSteps(t, e);
    BehindIsParent(t, k, e);
    result := EraseRange(f, LeadingOf(position), Increment(TrailingOf(position)));
    assert f.ring == w[..k] + w[e + 1..];
    WordDetermines(f.root, Pruned(t, k));
  }

  // ---- a node with a sibling behind it ----------------------------------------------------

  /** A tree added behind the children of the only tree. */
  lemma PlugLastChild<N>(n: N, t: Tree<N>, fs: seq<Tree<N>>)
    ensures 1 <= |Word(t)| < |Word(Tree(n, [t]))| && Word(Tree(n, [t]))[|Word(t)|] == Pos(t.node, false)
    ensures PlugTree(Tree(n, [t]), |Word(t)|, fs) == Tree(n, [Tree(t.node, t.children + fs)])
  {
    WordsSingle(t);
    PlugAtEnd(t, fs);
  }

  lemma TwoChildren<N>(n: N, r: N, a: N, b: N)
    ensures Word(Tree(n, [Tree(r, [Tree(a, []), Tree(b, [])])])) ==
      [Pos(n, true), Pos(r, true), Pos(a, true), Pos(a, false), Pos(b, true), Pos(b, false), Pos(r, false), Pos(n, false)]
  {
    var x, y := Tree(a, []), Tree(b, []);
    WordsSingle(x);
    WordsSingle(y);
    WordsConcat([x], [y]);
    assert [x] + [y] == [x, y];
    WordsSingle(Tree(r, [x, y]));
  }

  /** A forest with one tree: a node with two children. */
  method BuildFamily<T(0)>(x: T, y: T, z: T) returns (f: Forest<T>, parent: Iter<T>, first: Iter<T>, second: Iter<T>)
    ensures f.Valid() && fresh(f) && fresh(f.Repr())
    ensures f.root == Tree(f.tail, [Tree(parent.node, [Tree(first.node, []), Tree(second.node, [])])])
  {
    hide Word, Words, Ring, Distinct, Linked, Count, Find, PlugTree;
    f := new Forest<T>();
    parent := Append(f, x);
    assert f.root.children == [Tree(parent.node, [])];
    first := AddOnly(f, parent, [], y);
    assert [] + [Tree(first.node, [])] == [Tree(first.node, [])];
    second := AddOnly(f, parent, [Tree(first.node, [])], z);
    assert [Tree(first.node, [])] + [Tree(second.node, [])] == [Tree(first.node, []), Tree(second.node, [])];
  }

  method AddOnly<T(0)>(f: Forest<T>, parent: Iter<T>, ghost cs: seq<Tree<Node<T>>>, x: T) returns (child: Iter<T>)
    requires f.Valid() && f.root == Tree(f.tail, [Tree(parent.node, cs)])
    modifies f, f.Repr()`leadingNext, f.Repr()`leadingPrior, f.Repr()`trailingNext, f.Repr()`trailingPrior
    ensures f.Valid() && fresh(f.Repr() - old(f.Repr())) && f.root == Tree(f.tail, [Tree(parent.node, cs + [Tree(child.node, [])])])
  {
    hide Word, Words, Ring, Distinct, Linked, Count, Find, PlugTree, PathAt;
    ghost var t := Tree(parent.node, cs);
    ghost var k, w := |Word(t)|, f.ring;
    PlugLastChild(f.tail, t, []);
    FindDistinct(w, k);
    OnlyTree(f, t);
    child := AddChild(f, Pos(parent.node, false), x);
    PlugLastChild(f.tail, t, [Tree(child.node, [])]);
    PlugTreeWord(Tree(f.tail, [t]), k, [Tree(child.node, [])]);
    LeafWord(child.node);
    assert forall p :: p in f.ring ==> p in w || p.node == child.node;
  }

  lemma OnlyTree<T(0)>(f: Forest<T>, t: Tree<Node<T>>)
    requires f.Valid() && f.root == Tree(f.tail, [t])
    ensures t.node != f.tail
  {
    WordsSingle(t);
    f.NotTheRoot(1);
  }

  /** The documented result, the trailing edge of the parent, is not what comes back. */
  method EraseFirstOfTwo<T(0)>(f: Forest<T>, parent: Iter<T>, first: Iter<T>, second: Iter<T>) returns (result: Iter<T>)
    requires f.Valid() && f.root == Tree(f.tail, [Tree(parent.node, [Tree(first.node, []), Tree(second.node, [])])])
    modifies f, f.Repr()`leadingNext, f.Repr()`leadingPrior, f.Repr()`trailingNext, f.Repr()`trailingPrior
    ensures f.Valid() && result == Pos(second.node, true) && result != Pos(parent.node, false)
  {
    hide Word, Words, Ring, Distinct, Linked, Count, Find, PathAt, Pruned;
    TwoChildren(f.tail, parent.node, first.node, second.node);
    f.NotTheRoot(3);
    IncrementSteps(f.root, 3);
    assert f.ring[3] == Pos(first.node, false);
    result := EraseWithSubtree(f, Pos(first.node, false));
  }
}
