// The reference checker that tests compare answers with (test/util/graph_verifier.cpp).

module Verifier {
  import opened Counting
  import opened Pairing
  import opened Graphs
  import opened Buckets
  import opened DsuSpec
  import D = DsuSequential
  import Snap = Snapshot

  /** Row i of the matrix holds the pairs (i, i), (i, i + 1), ... */
  predicate Triangular(adj: seq<seq<bool>>, n: nat) {
    |adj| == n && forall i: nat | i < n :: |adj[i]| == n - i
  }

  predicate Present(adj: seq<seq<bool>>, e: Edge) {
    e.src < e.dst && e.src < |adj| && e.dst - e.src < |adj[e.src]| && adj[e.src][e.dst - e.src]
  }

  /** The graph a matrix stands for; its diagonal holds self loops, which connect nothing. */
  ghost function GraphOf(adj: seq<seq<bool>>): Graph {
    set i, j | i in Range(0, |adj|) && j in Range(i + 1, i + |adj[i]|) && adj[i][j - i] :: Edge(i, j)
  }

  lemma GraphHas(adj: seq<seq<bool>>, n: nat, e: Edge)
    requires Triangular(adj, n)
    ensures e in GraphOf(adj) <==> Present(adj, e)
    ensures e in GraphOf(adj) ==> e.src < e.dst < n
  {
    if Present(adj, e) {
      assert e.src in Range(0, |adj|) && e.dst in Range(e.src + 1, e.src + |adj[e.src]|);
    }
  }

  function Flip(adj: seq<seq<bool>>, i: nat, j: nat): (r: seq<seq<bool>>)
    requires i < |adj| && j < |adj[i]|
  {
    adj[i := adj[i][j := !adj[i][j]]]
  }

  /** The matrices differ in the cell of e, which may be on the diagonal, and in no other. */
  predicate OnlyCell(was: seq<seq<bool>>, now: seq<seq<bool>>, n: nat, e: Edge)
    requires Triangular(was, n) && Triangular(now, n)
  {
    forall i: nat, j: nat | i < n && j < n - i :: now[i][j] == (was[i][j] != (Edge(i, i + j) == e))
  }

  lemma FlipOnlyCell(adj: seq<seq<bool>>, n: nat, e: Edge)
    requires Triangular(adj, n) && e.src <= e.dst < n && Triangular(Flip(adj, e.src, e.dst - e.src), n)
    ensures OnlyCell(adj, Flip(adj, e.src, e.dst - e.src), n, e)
  {
  }

  /** Flipping a cell toggles its edge; a cell of the diagonal changes nothing. */
  lemma FlipToggles(adj: seq<seq<bool>>, n: nat, e: Edge)
    requires Triangular(adj, n) && e.src <= e.dst < n
    ensures Triangular(Flip(adj, e.src, e.dst - e.src), n)
    ensures GraphOf(Flip(adj, e.src, e.dst - e.src)) == if e.src == e.dst then GraphOf(adj) else SymDiff(GraphOf(adj), {e})
  {
    var next := Flip(adj, e.src, e.dst - e.src);
    var a, b := GraphOf(next), if e.src == e.dst then GraphOf(adj) else SymDiff(GraphOf(adj), {e});
    forall x: Edge
      ensures x in a <==> Present(next, x)
      ensures x in GraphOf(adj) <==> Present(adj, x)
    {
      GraphHas(adj, n, x);
      GraphHas(next, n, x);
    }
    forall x | x in a
      ensures x in b
    {
      assert x != e ==> Present(adj, x);
    }
    forall x | x in b
      ensures x in a
    {
      assert x != e ==> Present(next, x);
    }
  }

  /** The edges in the cells before (i, j), row by row. */
  ghost function Before(adj: seq<seq<bool>>, i: nat, j: nat): Graph {
    set e | e in GraphOf(adj) && (e.src < i || (e.src == i && e.dst < i + j))
  }

  /** The edge of one cell added; a cell of the diagonal adds none. */
  ghost function WithCell(f: Graph, i: nat, j: nat): Graph {
    if j > 0 then f + {Edge(i, i + j)} else f
  }

  lemma BeforeNext(adj: seq<seq<bool>>, n: nat, i: nat, j: nat)
    requires Triangular(adj, n) && i < n && j < n - i
    ensures adj[i][j] ==> Before(adj, i, j + 1) == WithCell(Before(adj, i, j), i, j)
    ensures !adj[i][j] ==> Before(adj, i, j + 1) == Before(adj, i, j)
  {
    GraphHas(adj, n, Edge(i, i + j));
  }

  lemma BeforeRow(adj: seq<seq<bool>>, n: nat, i: nat)
    requires Triangular(adj, n) && i < n
    ensures Before(adj, i, n - i) == Before(adj, i + 1, 0)
  {
    forall e: Edge | e in GraphOf(adj)
      ensures e.dst < n
    {
      GraphHas(adj, n, e);
    }
  }

  lemma BeforeEnds(adj: seq<seq<bool>>, n: nat)
    requires Triangular(adj, n)
    ensures Before(adj, 0, 0) == {} && Before(adj, n, 0) == GraphOf(adj)
  {
    forall e: Edge | e in GraphOf(adj)
      ensures e.src < n
    {
      GraphHas(adj, n, e);
    }
  }

  lemma SelfJoinSpans(d: Dsu, e: Dsu, f: Graph, i: nat)
    requires Spans(d, f) && i < d.Size() && Joined(d, e, i, i)
    ensures Spans(e, f)
  {
    forall x: nat, y: nat | x < e.Size() && y < e.Size()
      ensures e.SameSet(x, y) <==> Connected(f, x, y)
    {
      assert e.SameSet(x, y) <==> Bridged(d, i, i, x, y);
    }
  }

  /** One cell of the matrix handed to merge. */
  lemma CellSpans(f: Graph, i: nat, j: nat, d: Dsu, e: Dsu)
    requires i + j < d.Size() && Spans(d, f) && Joined(d, e, i, i + j)
    ensures Spans(e, WithCell(f, i, j))
  {
    if j > 0 {
      EdgeJoinSpans(d, e, f, i, j);
    } else {
      SelfJoinSpans(d, e, f, i);
    }
  }

  lemma EdgeJoinSpans(d: Dsu, e: Dsu, f: Graph, i: nat, j: nat)
    requires i + j < d.Size() && j > 0 && Spans(d, f) && Joined(d, e, i, i + j)
    ensures Spans(e, f + {Edge(i, i + j)})
  {
    JoinSpans(d, e, f, Edge(i, i + j));
  }

  /** What a merge of one cell does to the partition and to the number of its sets. */
  lemma CellMerged(adj: seq<seq<bool>>, n: nat, i: nat, j: nat, d: Dsu, e: Dsu, ret: D.MergeRet)
    requires Triangular(adj, n) && i < n && j < n - i && adj[i][j]
    requires d.Size() == n && Spans(d, Before(adj, i, j)) && Joined(d, e, i, i + j)
    requires ret.merged ==> ret.child in d.Roots() && e.Roots() == d.Roots() - {ret.child}
    requires !ret.merged ==> e.Roots() == d.Roots()
    ensures Spans(e, Before(adj, i, j + 1))
    ensures |e.Roots()| == if ret.merged then |d.Roots()| - 1 else |d.Roots()|
  {
    BeforeNext(adj, n, i, j);
    CellSpans(Before(adj, i, j), i, j, d, e);
  }

  // Component counts against connectivity

  /** Vertices with equal labels are exactly the connected ones. */
  ghost predicate SamePartition(labels: seq<nat>, g: Graph) {
    forall x: nat, y: nat | x < |labels| && y < |labels| :: labels[x] == labels[y] <==> Connected(g, x, y)
  }

  ghost function RootOf(d: Dsu): nat -> nat
    requires d.Valid()
  {
    (x: nat) => if x < d.Size() then d.Root(x) else x
  }

  /** If labels are constant on sets and as many vertices label themselves as there are sets, each set has one of those. */
  lemma OwnInEverySet(d: Dsu, labels: seq<nat>, v: nat) returns (x: nat)
    requires d.Valid() && |labels| == d.Size() && v < d.Size()
    requires forall i: nat | i < d.Size() :: labels[d.Root(i)] == labels[i]
    requires |Snap.OwnRoots(labels, Range(0, |labels|))| == |d.Roots()|
    ensures x < d.Size() && labels[x] == x && d.SameSet(x, v)
  {
    var own := Snap.OwnRoots(labels, Range(0, |labels|));
    var f := RootOf(d);
    var image := set k | k in own :: f(k);
    InjectionCard(own, image, f);
    forall r | r in image
      ensures r in d.Roots()
    {
    }
    FullSubset(image, d.Roots());
    assert d.Root(v) in image;
    x :| x in own && f(x) == d.Root(v);
  }

  ghost predicate ConstantOnSets(d: Dsu, labels: seq<nat>)
    requires d.Valid() && |labels| == d.Size()
  {
    forall i: nat | i < d.Size() :: labels[d.Root(i)] == labels[i]
  }

  lemma RefinementForces(d: Dsu, g: Graph, labels: seq<nat>)
    requires Spans(d, g) && |labels| == d.Size() && ConstantOnSets(d, labels)
    requires |Snap.OwnRoots(labels, Range(0, |labels|))| == |d.Roots()|
    ensures SamePartition(labels, g)
  {
    forall x: nat, y: nat | x < |labels| && y < |labels|
      ensures labels[x] == labels[y] <==> Connected(g, x, y)
    {
      var a := OwnInEverySet(d, labels, x);
      var b := OwnInEverySet(d, labels, y);
      assert labels[d.Root(a)] == labels[a] && labels[d.Root(b)] == labels[b];
      assert labels[d.Root(x)] == labels[x] && labels[d.Root(y)] == labels[y];
      assert d.SameSet(x, y) <==> Connected(g, x, y);
    }
  }

  lemma SamePartitionConstant(d: Dsu, g: Graph, labels: seq<nat>)
    requires Spans(d, g) && |labels| == d.Size() && SamePartition(labels, g)
    ensures ConstantOnSets(d, labels)
  {
    forall i: nat | i < d.Size()
      ensures labels[d.Root(i)] == labels[i]
    {
      var r := d.Root(i);
      assert d.SameSet(r, i) <==> Connected(g, r, i);
    }
  }

  /** One-way refinement and equal counts force equality, for any labels at all. */
  lemma AgreementIff(d: Dsu, g: Graph, labels: seq<nat>, count: nat)
    requires Spans(d, g) && |labels| == d.Size() && count == |Snap.OwnRoots(labels, Range(0, |labels|))|
    ensures count == |d.Roots()| && ConstantOnSets(d, labels) <==>
            count == |Leaders(g, d.Size())| && SamePartition(labels, g)
  {
    RootsCountComponents(d, g);
    if count == |d.Roots()| && ConstantOnSets(d, labels) {
      RefinementForces(d, g, labels);
    }
    if SamePartition(labels, g) {
      SamePartitionConstant(d, g, labels);
    }
  }

  ghost function LabelOf(labels: seq<nat>): nat -> nat {
    (r: nat) => if r < |labels| then labels[r] else r
  }

  /**
   * When every label labels itself there is one such vertex per class, so the count is no
   * extra condition.
   */
  lemma IdempotentCount(d: Dsu, g: Graph, labels: seq<nat>)
    requires Spans(d, g) && |labels| == d.Size() && SamePartition(labels, g)
    requires forall i: nat | i < |labels| :: labels[i] < |labels| && labels[labels[i]] == labels[i]
    ensures |Snap.OwnRoots(labels, Range(0, |labels|))| == |Leaders(g, d.Size())|
  {
    RootsCountComponents(d, g);
    FewerOwn(d, g, labels);
    FewerSets(d, g, labels);
  }

  lemma FewerOwn(d: Dsu, g: Graph, labels: seq<nat>)
    requires Spans(d, g) && |labels| == d.Size() && SamePartition(labels, g)
    ensures |Snap.OwnRoots(labels, Range(0, |labels|))| <= |d.Roots()|
  {
    var own := Snap.OwnRoots(labels, Range(0, |labels|));
    forall x, y | x in own && y in own && RootOf(d)(x) == RootOf(d)(y)
      ensures x == y
    {
      assert d.SameSet(x, y) <==> Connected(g, x, y);
    }
    InjectionCard(own, d.Roots(), RootOf(d));
  }

  lemma FewerSets(d: Dsu, g: Graph, labels: seq<nat>)
    requires Spans(d, g) && |labels| == d.Size() && SamePartition(labels, g)
    requires forall i: nat | i < |labels| :: labels[i] < |labels| && labels[labels[i]] == labels[i]
    ensures |d.Roots()| <= |Snap.OwnRoots(labels, Range(0, |labels|))|
  {
    forall x, y | x in d.Roots() && y in d.Roots() && LabelOf(labels)(x) == LabelOf(labels)(y)
      ensures x == y
    {
      assert d.Root(x) == x && d.Root(y) == y;
      assert d.SameSet(x, y) <==> Connected(g, x, y);
    }
    InjectionCard(d.Roots(), Snap.OwnRoots(labels, Range(0, |labels|)), LabelOf(labels));
  }

  // Spanning forests

  /** The listed edges form a forest, none listed twice in either direction, none a self loop. */
  ghost predicate Forestish(edges: seq<Edge>) {
    Acyclic(PairGraph(edges)) && |PairGraph(edges)| == |edges|
  }

  lemma PairGraphSnoc(edges: seq<Edge>, e: Edge)
    ensures PairGraph(edges + [e]) == PairGraph(edges) + if e.src != e.dst then {Norm(e)} else {}
  {
    var a, b := PairGraph(edges + [e]), PairGraph(edges) + if e.src != e.dst then {Norm(e)} else {};
    forall x | x in a
      ensures x in b
    {
      var y :| y in edges + [e] && y.src != y.dst && Norm(y) == x;
      assert y in edges || y == e;
    }
    forall x | x in b
      ensures x in a
    {
      if x in PairGraph(edges) {
        var y :| y in edges && y.src != y.dst && Norm(y) == x;
        assert y in edges + [e];
      } else {
        assert e in edges + [e];
      }
    }
  }

  lemma {:induction false} PairGraphCard(edges: seq<Edge>)
    ensures |PairGraph(edges)| <= |edges|
  {
    if edges == [] {
      assert PairGraph(edges) == {};
    } else {
      var m := |edges| - 1;
      PairGraphCard(edges[..m]);
      PairGraphSnoc(edges[..m], edges[m]);
      assert edges[..m] + [edges[m]] == edges;
    }
  }

  /** Adding an edge keeps a forest exactly when its ends were not connected yet. */
  lemma ForestishSnoc(edges: seq<Edge>, e: Edge)
    ensures Forestish(edges + [e]) <==> Forestish(edges) && !Connected(PairGraph(edges), e.src, e.dst)
  {
    var f, h := PairGraph(edges), PairGraph(edges + [e]);
    PairGraphSnoc(edges, e);
    PairGraphCard(edges);
    if Forestish(edges) && !Connected(f, e.src, e.dst) {
      NotConnectedFresh(f, e);
      AcyclicAdd(f, Norm(e));
    }
    if Forestish(edges + [e]) {
      assert e.src != e.dst && Norm(e) !in f && h == f + {Norm(e)};
      AcyclicSubset(f, h);
      assert h - {Norm(e)} == f;
      if Connected(f, e.src, e.dst) {
        ConnSym(f, e.src, e.dst);
      }
    }
  }

  lemma NotConnectedFresh(f: Graph, e: Edge)
    requires !Connected(f, e.src, e.dst)
    ensures e.src != e.dst && Norm(e) !in f && !Connected(f, Norm(e).src, Norm(e).dst)
  {
    if Norm(e) in f {
      ConnEdge(f, Norm(e));
    }
    if Connected(f, Norm(e).src, Norm(e).dst) {
      ConnSym(f, Norm(e).src, Norm(e).dst);
    }
  }

  lemma AcyclicSubset(f: Graph, h: Graph)
    requires Acyclic(h) && f <= h
    ensures Acyclic(f)
  {
    forall e | e in f
      ensures !Connected(f - {e}, e.src, e.dst)
    {
      if Connected(f - {e}, e.src, e.dst) {
        ConnMono(f - {e}, h - {e}, e.src, e.dst);
      }
    }
  }

  lemma {:induction false} ForestishPrefix(edges: seq<Edge>, k: nat)
    requires Forestish(edges) && k < |edges|
    ensures Forestish(edges[..k]) && !Connected(PairGraph(edges[..k]), edges[k].src, edges[k].dst)
    decreases |edges|
  {
    var m := |edges| - 1;
    assert edges == edges[..m] + [edges[m]];
    ForestishSnoc(edges[..m], edges[m]);
    if k < m {
      ForestishPrefix(edges[..m], k);
      assert edges[..m][..k] == edges[..k];
    }
  }

  /** What a spanning forest of g has to be. */
  ghost predicate SpanningForestOf(edges: seq<Edge>, g: Graph, n: nat) {
    && Forestish(edges) && PairGraph(edges) <= g
    && forall x: nat, y: nat | x < n && y < n :: Connected(PairGraph(edges), x, y) <==> Connected(g, x, y)
  }

  predicate InBounds(edges: seq<Edge>, n: nat) {
    forall k: nat | k < |edges| :: edges[k].src < n && edges[k].dst < n
  }

  /** What is left of g when the edges of the first k forests are taken out. */
  ghost function Left(g: Graph, forests: seq<seq<Edge>>, k: nat): Graph
    requires k <= |forests|
  {
    if k == 0 then g else Left(g, forests, k - 1) - PairGraph(forests[k - 1])
  }

  /** Each forest spans what the ones before it left. */
  ghost predicate AllSpan(forests: seq<seq<Edge>>, g: Graph, n: nat) {
    SpanSoFar(forests, g, n, |forests|)
  }

  ghost predicate SpanSoFar(forests: seq<seq<Edge>>, g: Graph, n: nat, i: nat)
    requires i <= |forests|
  {
    forall k: nat | k < i :: SpansRest(forests, g, n, k)
  }

  lemma NextSpan(forests: seq<seq<Edge>>, g: Graph, n: nat, k: nat, ok: bool)
    requires k < |forests| && SpanSoFar(forests, g, n, k) && ok == SpanningForestOf(forests[k], Left(g, forests, k), n)
    ensures ok ==> SpanSoFar(forests, g, n, k + 1)
    ensures !ok ==> !AllSpan(forests, g, n)
  {
    assert SpansRest(forests, g, n, k) == ok;
  }

  ghost predicate SpansRest(forests: seq<seq<Edge>>, g: Graph, n: nat, k: nat)
    requires k < |forests|
  {
    SpanningForestOf(forests[k], Left(g, forests, k), n)
  }

  // Which exception a forest gets

  /**
   * Edge k is the first to break the forest, and it does so by not being in the graph: the
   * edges before it are in g, and with it they still form a forest.
   */
  ghost predicate StraysAt(edges: seq<Edge>, g: Graph, k: nat) {
    && k < |edges| && Forestish(edges[..k + 1]) && PairGraph(edges[..k]) <= g
    && Norm(edges[k]) !in g - PairGraph(edges[..k])
  }

  ghost predicate Strays(edges: seq<Edge>, g: Graph) {
    exists k: nat :: StraysAt(edges, g, k)
  }

  lemma InPairGraph(edges: seq<Edge>, k: nat)
    requires k < |edges| && Forestish(edges)
    ensures Norm(edges[k]) in PairGraph(edges)
  {
    ForestishPrefix(edges, k);
    NotConnectedFresh(PairGraph(edges[..k]), edges[k]);
  }

  /** A list whose edges are all in g never strays. */
  lemma StraysNot(edges: seq<Edge>, g: Graph)
    requires Forestish(edges) && PairGraph(edges) <= g
    ensures !Strays(edges, g)
  {
    forall k: nat | k < |edges| && Forestish(edges[..k + 1])
      ensures !StraysAt(edges, g, k)
    {
      InPairGraph(edges, k);
      ForestishPrefix(edges, k);
      NotConnectedFresh(PairGraph(edges[..k]), edges[k]);
    }
  }

  /** Edges before k that are all in g do not stray. */
  lemma EarlierStraysNot(edges: seq<Edge>, g: Graph, k: nat, j: nat)
    requires j < k <= |edges| && Forestish(edges[..k]) && PairGraph(edges[..k]) <= g
    ensures !StraysAt(edges, g, j)
  {
    var init := edges[..k];
    StraysNot(init, g);
    assert !StraysAt(init, g, j);
    assert init[..j + 1] == edges[..j + 1] && init[..j] == edges[..j];
  }

  lemma LongerNotForest(edges: seq<Edge>, k: nat, j: nat)
    requires k < j < |edges| && !Forestish(edges[..k + 1])
    ensures !Forestish(edges[..j + 1])
  {
    assert edges[..j + 1][..k + 1] == edges[..k + 1];
    if Forestish(edges[..j + 1]) {
      ForestishPrefix(edges[..j + 1], k + 1);
    }
  }

  /** Nor does a list that a redundant edge breaks first. */
  lemma RedundantNotStrays(edges: seq<Edge>, g: Graph, k: nat)
    requires k < |edges| && Forestish(edges[..k]) && PairGraph(edges[..k]) <= g && !Forestish(edges[..k + 1])
    ensures !Strays(edges, g)
  {
    forall j: nat | j < |edges|
      ensures !StraysAt(edges, g, j)
    {
      if j < k {
        EarlierStraysNot(edges, g, k, j);
      } else if j > k {
        LongerNotForest(edges, k, j);
      }
    }
  }

  /** The first forest that does not span what is left, and it strays. */
  ghost predicate StrayForest(forests: seq<seq<Edge>>, g: Graph, n: nat, i: nat) {
    i < |forests| && SpanSoFar(forests, g, n, i) && Strays(forests[i], Left(g, forests, i))
  }

  ghost predicate SomeStrays(forests: seq<seq<Edge>>, g: Graph, n: nat) {
    exists i: nat :: StrayForest(forests, g, n, i)
  }

  lemma SpanningStraysNot(edges: seq<Edge>, g: Graph, n: nat)
    requires SpanningForestOf(edges, g, n)
    ensures !Strays(edges, g)
  {
    StraysNot(edges, g);
  }

  /** Only the first forest that fails decides. */
  lemma FirstDecides(forests: seq<seq<Edge>>, g: Graph, n: nat, k: nat)
    requires k < |forests| && SpanSoFar(forests, g, n, k) && !SpansRest(forests, g, n, k)
    ensures SomeStrays(forests, g, n) <==> Strays(forests[k], Left(g, forests, k))
  {
    forall i: nat | StrayForest(forests, g, n, i)
      ensures i == k
    {
      if i < k {
        assert SpansRest(forests, g, n, i);
        SpanningStraysNot(forests[i], Left(g, forests, i), n);
      }
    }
    if Strays(forests[k], Left(g, forests, k)) {
      assert StrayForest(forests, g, n, k);
    }
  }

  lemma AllSpanNoneStrays(forests: seq<seq<Edge>>, g: Graph, n: nat)
    requires AllSpan(forests, g, n)
    ensures !SomeStrays(forests, g, n)
  {
    forall i: nat | i < |forests|
      ensures !StrayForest(forests, g, n, i)
    {
      assert SpansRest(forests, g, n, i);
      SpanningStraysNot(forests[i], Left(g, forests, i), n);
    }
  }

  /** The check of this forest takes at least one edge out of the matrix. */
  predicate TakesSome(edges: seq<Edge>, g: Graph) {
    edges != [] && Norm(edges[0]) in g
  }

  /** Forest k is the last one looked at. */
  ghost predicate LastSeen(forests: seq<seq<Edge>>, g: Graph, n: nat, k: nat) {
    k < |forests| && SpanSoFar(forests, g, n, k) && (k == |forests| - 1 || !SpansRest(forests, g, n, k))
  }

  datatype Verdict = Accepted | BadEdge | IncorrectCC | IncorrectForest

  class GraphVerifier {
    const n: nat
    const kruskalDsu: D.DisjointSetUnion
    var adj: seq<seq<bool>>
    var kruskalCcs: nat
    var needQueryCompute: bool

    ghost predicate Valid()
      reads this, kruskalDsu, kruskalDsu.parent, kruskalDsu.priority
    {
      && kruskalDsu.Valid() && kruskalDsu.parent.Length == n && Triangular(adj, n)
      && (!needQueryCompute ==> Computed(GraphOf(adj)))
    }

    /** The union-find and the count are those of the graph g. */
    ghost predicate Computed(g: Graph)
      reads this, kruskalDsu, kruskalDsu.parent, kruskalDsu.priority
    {
      Spans(kruskalDsu.Val(), g) && kruskalCcs == |kruskalDsu.Val().Roots()|
    }

    constructor (n: nat, prio: seq<nat>)
      requires |prio| == n
      ensures Valid() && GraphOf(adj) == {} && needQueryCompute
      ensures this.n == n && fresh(kruskalDsu) && fresh(kruskalDsu.parent)
    {
      this.n := n;
      kruskalDsu := new D.DisjointSetUnion(prio);
      adj := seq(n, i requires 0 <= i < n => seq(n - i, _ => false));
      kruskalCcs := 0;
      needQueryCompute := true;
    }

    /** edge_update: toggles the edge, or throws when an endpoint does not exist. */
    method EdgeUpdate(e: Edge) returns (r: Verdict)
      requires Valid()
      modifies this`adj, this`needQueryCompute
      ensures Valid()
      ensures e.src >= n || e.dst >= n ==> r == BadEdge && adj == old(adj) && needQueryCompute == old(needQueryCompute)
      ensures e.src < n && e.dst < n ==>
                r == Accepted && needQueryCompute && OnlyCell(old(adj), adj, n, Norm(e)) &&
                GraphOf(adj) == if e.src == e.dst then old(GraphOf(adj)) else SymDiff(old(GraphOf(adj)), {Norm(e)})
    {
      if e.src >= n || e.dst >= n {
        return BadEdge;
      }
      ghost var was := adj;
      var x := Norm(e);
      adj := Flip(adj, x.src, x.dst - x.src);
      needQueryCompute := true;
      FlipToggles(was, n, x);
      FlipOnlyCell(was, n, x);
      return Accepted;
    }

    /** kruskal: recomputes components and their number if the graph may have changed. */
    method Kruskal()
      requires Valid()
      modifies this`kruskalCcs, this`needQueryCompute, kruskalDsu.parent
      ensures Valid() && !needQueryCompute && Computed(GraphOf(adj))
    {
      if !needQueryCompute {
        return;
      }
      kruskalCcs := n;
      kruskalDsu.Reset();
      SingletonsSpanned(kruskalDsu.priority[..]);
      BeforeEnds(adj, n);
      for i := 0 to n
        invariant kruskalDsu.Valid() && Computed(Before(adj, i, 0))
      {
        ScanRow(i);
        BeforeRow(adj, n, i);
      }
      needQueryCompute := false;
    }

    method ScanRow(i: nat)
      requires kruskalDsu.Valid() && kruskalDsu.parent.Length == n && Triangular(adj, n) && i < n
      requires Computed(Before(adj, i, 0))
      modifies this`kruskalCcs, kruskalDsu.parent
      ensures kruskalDsu.Valid() && Computed(Before(adj, i, n - i))
    {
      for j := 0 to n - i
        invariant kruskalDsu.Valid() && Computed(Before(adj, i, j))
      {
        ScanCell(i, j);
      }
    }

    method MergeCell(i: nat, j: nat)
      requires kruskalDsu.Valid() && kruskalDsu.parent.Length == n && Triangular(adj, n) && i < n && j < n - i
      requires Computed(Before(adj, i, j)) && adj[i][j]
      modifies this`kruskalCcs, kruskalDsu.parent
      ensures kruskalDsu.Valid() && Computed(Before(adj, i, j + 1))
    {
      ghost var d := kruskalDsu.Val();
      var ret := kruskalDsu.Merge(i, i + j);
      CellMerged(adj, n, i, j, d, kruskalDsu.Val(), ret);
      if ret.merged {
        kruskalCcs := kruskalCcs - 1;
      }
    }

    method ScanCell(i: nat, j: nat)
      requires kruskalDsu.Valid() && kruskalDsu.parent.Length == n && Triangular(adj, n) && i < n && j < n - i
      requires Computed(Before(adj, i, j))
      modifies this`kruskalCcs, kruskalDsu.parent
      ensures kruskalDsu.Valid() && Computed(Before(adj, i, j + 1))
    {
      if adj[i][j] {
        MergeCell(i, j);
      } else {
        BeforeNext(adj, n, i, j);
      }
    }

    /** verify_edge: is the edge in the graph? A self loop is looked up on the diagonal. */
    method VerifyEdge(e: Edge) returns (r: Verdict)
      requires Valid() && e.src < n && e.dst < n
      ensures r == Accepted || r == BadEdge
      ensures e.src != e.dst ==> (r == Accepted <==> Norm(e) in GraphOf(adj))
      ensures e.src == e.dst ==> (r == Accepted <==> adj[e.src][0])
    {
      var x := Norm(e);
      GraphHas(adj, n, x);
      r := if adj[x.src][x.dst - x.src] then Accepted else BadEdge;
    }

    /**
     * verify_connected_components. labels and count are any ConnectedComponents object, the
     * count being the number of vertices that are their own label. It is accepted exactly
     * when it has as many components as the graph and equal labels mean connected.
     */
    method VerifyConnectedComponents(labels: seq<nat>, count: nat) returns (r: Verdict)
      requires Valid() && |labels| == n && count == |Snap.OwnRoots(labels, Range(0, |labels|))|
      modifies this`kruskalCcs, this`needQueryCompute, kruskalDsu.parent
      ensures Valid() && adj == old(adj) && !needQueryCompute
      ensures r == Accepted <==> count == |Leaders(GraphOf(adj), n)| && SamePartition(labels, GraphOf(adj))
      ensures r == Accepted || r == IncorrectCC
    {
      Kruskal();
      ghost var d := kruskalDsu.Val();
      AgreementIff(d, GraphOf(adj), labels, count);
      if kruskalCcs != count {
        return IncorrectCC;
      }
      var ok := LabelsAgree(labels);
      HalvedSpans(d, kruskalDsu.Val(), GraphOf(adj));
      return if ok then Accepted else IncorrectCC;
    }

    /** Does every vertex have the label of its root? */
    method LabelsAgree(labels: seq<nat>) returns (ok: bool)
      requires kruskalDsu.Valid() && kruskalDsu.parent.Length == n == |labels|
      modifies kruskalDsu.parent
      ensures kruskalDsu.Valid() && SameRoots(old(kruskalDsu.Val()), kruskalDsu.Val())
      ensures ok == ConstantOnSets(old(kruskalDsu.Val()), labels)
    {
      ghost var d := kruskalDsu.Val();
      for i := 0 to n
        invariant kruskalDsu.Valid() && SameRoots(d, kruskalDsu.Val())
        invariant forall k: nat | k < i :: labels[d.Root(k)] == labels[k]
      {
        ghost var mid := kruskalDsu.Val();
        var root := kruskalDsu.FindRoot(i);
        SameRootsTrans(d, mid, kruskalDsu.Val());
        if labels[root] != labels[i] {
          return false;
        }
      }
      return true;
    }

    /**
     * verify_spanning_forests. The forests are accepted exactly when each spans what the ones
     * before it left of the graph. The first that does not is called a bad edge exactly when the
     * first edge that breaks it is one the graph does not have, and an incorrect forest otherwise.
     * However the check ends, the matrix is what it was. The cached components are not always: they
     * are those of what was left for the last forest looked at, and a recomputation is only due if
     * that forest had an edge to take.
     */
    method VerifySpanningForests(forests: seq<seq<Edge>>, prio: seq<nat>) returns (r: Verdict)
      requires Valid() && |prio| == n && forall k: nat | k < |forests| :: InBounds(forests[k], n)
      modifies this`adj, this`kruskalCcs, this`needQueryCompute, kruskalDsu.parent
      ensures adj == old(adj) && kruskalDsu.Valid() && Triangular(adj, n)
      ensures r == Accepted <==> AllSpan(forests, GraphOf(adj), n)
      ensures r == BadEdge <==> SomeStrays(forests, GraphOf(adj), n)
      ensures r != IncorrectCC
      ensures |forests| <= 1 ==> Valid()
      ensures forests == [] ==> unchanged(this) && unchanged(kruskalDsu.parent)
      ensures forests != [] ==> exists k: nat :: LastSeen(forests, GraphOf(adj), n, k) && CacheAfter(forests, GraphOf(adj), k)
    {
      var backup := adj;
      r := VerifyEach(forests, prio);
      adj := backup;
    }

    /** What the check of forest k leaves of the cached components and of the flag. */
    ghost predicate CacheAfter(forests: seq<seq<Edge>>, g: Graph, k: nat)
      reads this, kruskalDsu, kruskalDsu.parent, kruskalDsu.priority
      requires k < |forests|
    {
      && (needQueryCompute <==> TakesSome(forests[k], Left(g, forests, k)))
      && (!needQueryCompute ==> Computed(Left(g, forests, k)))
    }

    /** The outer loop, before the matrix is put back. */
    method VerifyEach(forests: seq<seq<Edge>>, prio: seq<nat>) returns (r: Verdict)
      requires Valid() && |prio| == n && forall k: nat | k < |forests| :: InBounds(forests[k], n)
      modifies this`adj, this`kruskalCcs, this`needQueryCompute, kruskalDsu.parent
      ensures Valid() && r != IncorrectCC
      ensures r == Accepted <==> AllSpan(forests, old(GraphOf(adj)), n)
      ensures r == BadEdge <==> SomeStrays(forests, old(GraphOf(adj)), n)
      ensures |forests| <= 1 ==> needQueryCompute || Computed(old(GraphOf(adj)))
      ensures forests == [] ==> unchanged(this) && unchanged(kruskalDsu.parent)
      ensures forests != [] ==>
                exists k: nat :: LastSeen(forests, old(GraphOf(adj)), n, k) && CacheAfter(forests, old(GraphOf(adj)), k)
    {
      ghost var g := GraphOf(adj);
      for k := 0 to |forests|
        invariant Valid() && SpanSoFar(forests, g, n, k) && GraphOf(adj) == Left(g, forests, k)
        invariant needQueryCompute || Computed(Left(g, forests, if k == 0 then 0 else k - 1))
        invariant k == 0 ==> unchanged(this) && unchanged(kruskalDsu.parent)
        invariant k > 0 ==> CacheAfter(forests, g, k - 1)
      {
        r := VerifyOne(forests[k], prio);
        NextSpan(forests, g, n, k, r == Accepted);
        assert CacheAfter(forests, g, k);
        if r != Accepted {
          assert LastSeen(forests, g, n, k);
          FirstDecides(forests, g, n, k);
          return;
        }
      }
      AllSpanNoneStrays(forests, g, n);
      assert forests != [] ==> LastSeen(forests, g, n, |forests| - 1);
      return Accepted;
    }

    /** One turn of the outer loop: an accepted forest has been removed from the matrix. */
    method VerifyOne(edges: seq<Edge>, prio: seq<nat>) returns (r: Verdict)
      requires Valid() && |prio| == n && InBounds(edges, n)
      modifies this`adj, this`kruskalCcs, this`needQueryCompute, kruskalDsu.parent
      ensures Valid() && (needQueryCompute || Computed(old(GraphOf(adj))))
      ensures needQueryCompute <==> TakesSome(edges, old(GraphOf(adj)))
      ensures r == Accepted <==> SpanningForestOf(edges, old(GraphOf(adj)), n)
      ensures r == BadEdge <==> Strays(edges, old(GraphOf(adj)))
      ensures r == Accepted ==> GraphOf(adj) == old(GraphOf(adj)) - PairGraph(edges)
      ensures r != IncorrectCC
    {
      ghost var g := GraphOf(adj);
      Kruskal();
      var forestCcs := new D.DisjointSetUnion(prio);
      r := TakeEdges(forestCcs, edges);
      if r == Accepted {
        ghost var d, f := kruskalDsu.Val(), forestCcs.Val();
        var ok := RootsAgree(forestCcs);
        HalvedSpans(d, kruskalDsu.Val(), g);
        ForestVerdict(d, f, edges, g, n, ok);
        StraysNot(edges, g);
        r := if ok then Accepted else IncorrectForest;
      }
    }

    /** The first loop: every edge must join two sets of the forest and be in what is left of the graph. */
    method TakeEdges(forestCcs: D.DisjointSetUnion, edges: seq<Edge>) returns (r: Verdict)
      requires Valid() && !needQueryCompute && forall k: nat | k < |edges| :: edges[k].src < n && edges[k].dst < n
      requires forestCcs.Valid() && forestCcs.parent.Length == n && forestCcs.parent != kruskalDsu.parent
      requires forestCcs.parent != kruskalDsu.priority && forestCcs.Val() == Singletons(forestCcs.priority[..])
      modifies this`adj, this`needQueryCompute, forestCcs.parent
      ensures Valid() && forestCcs.Valid() && (needQueryCompute || adj == old(adj)) && kruskalDsu.Val() == old(kruskalDsu.Val())
      ensures r == Accepted <==> Forestish(edges) && PairGraph(edges) <= old(GraphOf(adj))
      ensures r == BadEdge <==> Strays(edges, old(GraphOf(adj)))
      ensures needQueryCompute <==> TakesSome(edges, old(GraphOf(adj)))
      ensures r == Accepted ==> Spans(forestCcs.Val(), PairGraph(edges)) && forestCcs.parent.Length == n
      ensures r == Accepted ==> GraphOf(adj) == old(GraphOf(adj)) - PairGraph(edges)
      ensures r != IncorrectCC
    {
      ghost var g := GraphOf(adj);
      NothingTaken(g, forestCcs.Val(), edges);
      for k := 0 to |edges|
        invariant Valid() && forestCcs.Valid() && (needQueryCompute || adj == old(adj))
        invariant kruskalDsu.Val() == old(kruskalDsu.Val())
        invariant Taken(GraphOf(adj), g, forestCcs.Val(), edges, k)
        invariant needQueryCompute <==> k > 0
        invariant k > 0 ==> TakesSome(edges, g)
      {
        r := TakeEdge(forestCcs, edges, k, g);
        if r != Accepted {
          return;
        }
      }
      AllTaken(GraphOf(adj), g, forestCcs.Val(), edges);
      return Accepted;
    }

    method TakeEdge(forestCcs: D.DisjointSetUnion, edges: seq<Edge>, k: nat, ghost g: Graph) returns (r: Verdict)
      requires Valid() && k < |edges| && edges[k].src < n && edges[k].dst < n
      requires forestCcs.Valid() && forestCcs.parent.Length == n && forestCcs.parent != kruskalDsu.parent
      requires forestCcs.parent != kruskalDsu.priority && Taken(GraphOf(adj), g, forestCcs.Val(), edges, k)
      modifies this`adj, this`needQueryCompute, forestCcs.parent
      ensures Valid() && forestCcs.Valid() && kruskalDsu.Val() == old(kruskalDsu.Val())
      ensures needQueryCompute || (adj == old(adj) && needQueryCompute == old(needQueryCompute))
      ensures r == Accepted ==> Taken(GraphOf(adj), g, forestCcs.Val(), edges, k + 1)
      ensures r != Accepted ==> !(Forestish(edges) && PairGraph(edges) <= g) && (r == BadEdge <==> Strays(edges, g))
      ensures r != IncorrectCC
      ensures if r == Accepted then needQueryCompute && Norm(edges[k]) in g else needQueryCompute == old(needQueryCompute)
      ensures r != Accepted && k == 0 ==> Norm(edges[0]) !in g
    {
      ghost var d := forestCcs.Val();
      var e := edges[k];
      var ret := forestCcs.Merge(e.src, e.dst);
      if !ret.merged {
        RedundantEdge(adj, n, g, d, edges, k);
        return IncorrectForest;
      }
      TakenOne(GraphOf(adj), g, d, forestCcs.Val(), edges, k);
      r := VerifyEdge(e);
      if r == Accepted {
        r := EdgeUpdate(e);
      }
    }

    /** The second loop: vertices with one root in the graph must have one root in the forest. */
    method RootsAgree(forestCcs: D.DisjointSetUnion) returns (ok: bool)
      requires kruskalDsu.Valid() && forestCcs.Valid() && kruskalDsu.parent.Length == forestCcs.parent.Length == n
      requires forestCcs.parent != kruskalDsu.parent && forestCcs.parent != kruskalDsu.priority
      requires kruskalDsu.parent != forestCcs.priority
      modifies kruskalDsu.parent, forestCcs.parent
      ensures kruskalDsu.Valid() && SameRoots(old(kruskalDsu.Val()), kruskalDsu.Val())
      ensures ok == Refines(old(kruskalDsu.Val()), old(forestCcs.Val()), n)
    {
      ghost var d, f := kruskalDsu.Val(), forestCcs.Val();
      ghost var rs, qs := RootList(d), RootList(f);
      RefinesLists(d, f, n);
      var rootMap: map<nat, nat> := map[];
      for i := 0 to n
        invariant kruskalDsu.Valid() && SameRoots(d, kruskalDsu.Val())
        invariant forestCcs.Valid() && SameRoots(f, forestCcs.Val())
        invariant Mapped(rs, qs, rootMap, i)
      {
        var root, image := BothRoots(forestCcs, i, d, f);
        ok, rootMap := Translate(rs, qs, rootMap, i, root, image);
        if !ok {
          return;
        }
      }
      MapEnd(rs, qs, rootMap);
      return true;
    }

    method BothRoots(forestCcs: D.DisjointSetUnion, i: nat, ghost d: Dsu, ghost f: Dsu) returns (root: nat, image: nat)
      requires kruskalDsu.Valid() && forestCcs.Valid() && kruskalDsu.parent.Length == forestCcs.parent.Length == n
      requires forestCcs.parent != kruskalDsu.parent && forestCcs.parent != kruskalDsu.priority
      requires kruskalDsu.parent != forestCcs.priority && i < n
      requires SameRoots(d, kruskalDsu.Val()) && SameRoots(f, forestCcs.Val())
      modifies kruskalDsu.parent, forestCcs.parent
      ensures kruskalDsu.Valid() && forestCcs.Valid()
      ensures SameRoots(d, kruskalDsu.Val()) && SameRoots(f, forestCcs.Val())
      ensures root == d.Root(i) && image == f.Root(i)
    {
      ghost var d1, f1 := kruskalDsu.Val(), forestCcs.Val();
      root := kruskalDsu.FindRoot(i);
      SameRootsTrans(d, d1, kruskalDsu.Val());
      image := forestCcs.FindRoot(i);
      SameRootsTrans(f, f1, forestCcs.Val());
    }

    /** combine: the graph seen by either checker but not both. The flag is not touched. */
    method Combine(oth: GraphVerifier)
      requires Valid() && Triangular(oth.adj, n)
      modifies this`adj
      ensures Triangular(adj, n)
      ensures forall i: nat, j: nat | i < n && j < n - i :: adj[i][j] == (old(adj)[i][j] != old(oth.adj)[i][j])
      ensures GraphOf(adj) == SymDiff(old(GraphOf(adj)), old(GraphOf(oth.adj)))
      ensures needQueryCompute ==> Valid()
    {
      var mine, others := adj, oth.adj;
      adj := seq(n, i requires 0 <= i < n =>
        seq(n - i, j requires 0 <= j < n - i => mine[i][j] != others[i][j]));
      XorToggles(mine, others, adj, n);
    }
  }

  /** Vertices in one set of d are in one set of f. */
  ghost predicate Refines(d: Dsu, f: Dsu, n: nat)
    requires d.Valid() && f.Valid() && d.Size() == f.Size() == n
  {
    forall x: nat, y: nat | x < n && y < n && d.SameSet(x, y) :: f.SameSet(x, y)
  }

  ghost function RootList(d: Dsu): (rs: seq<nat>)
    requires d.Valid()
    ensures |rs| == d.Size() && forall k: nat | k < |rs| :: rs[k] == d.Root(k)
  {
    seq(d.Size(), k requires 0 <= k < d.Size() => d.Root(k))
  }

  predicate Seen(rs: seq<nat>, qs: seq<nat>, i: nat, r: nat, q: nat)
    requires i <= |rs| == |qs|
  {
    exists k: nat :: k < i && rs[k] == r && qs[k] == q
  }

  predicate Sends(rs: seq<nat>, qs: seq<nat>, m: map<nat, nat>, k: nat)
    requires k < |rs| == |qs|
  {
    rs[k] in m && m[rs[k]] == qs[k]
  }

  /** The map sends the first i of the roots rs to the roots qs. */
  ghost predicate Mapped(rs: seq<nat>, qs: seq<nat>, m: map<nat, nat>, i: nat) {
    && i <= |rs| == |qs|
    && (forall k: nat | k < i :: Sends(rs, qs, m, k))
    && (forall r | r in m :: Seen(rs, qs, i, r, m[r]))
  }

  predicate Follow(rs: seq<nat>, qs: seq<nat>)
    requires |rs| == |qs|
  {
    forall x: nat, y: nat | x < |rs| && y < |rs| && rs[x] == rs[y] :: qs[x] == qs[y]
  }

  /** The map entry for one vertex: a new one, or a check of the one that is there. */
  method Translate(ghost rs: seq<nat>, ghost qs: seq<nat>, m: map<nat, nat>, ghost i: nat, root: nat, image: nat)
    returns (ok: bool, next: map<nat, nat>)
    requires Mapped(rs, qs, m, i) && i < |rs| && root == rs[i] && image == qs[i]
    ensures ok ==> Mapped(rs, qs, next, i + 1)
    ensures !ok ==> !Follow(rs, qs)
  {
    assert Seen(rs, qs, i + 1, root, image);
    if root !in m {
      MapNew(rs, qs, m, i);
      return true, m[root := image];
    } else if m[root] != image {
      assert Seen(rs, qs, i, root, m[root]);
      return false, m;
    }
    SeenLater(rs, qs, m, i);
    return true, m;
  }

  lemma MapNew(rs: seq<nat>, qs: seq<nat>, m: map<nat, nat>, i: nat)
    requires Mapped(rs, qs, m, i) && i < |rs| && rs[i] !in m
    ensures Mapped(rs, qs, m[rs[i] := qs[i]], i + 1)
  {
    var next := m[rs[i] := qs[i]];
    SeenLater(rs, qs, m, i);
    assert Seen(rs, qs, i + 1, rs[i], qs[i]);
    forall k: nat | k < i + 1
      ensures Sends(rs, qs, next, k)
    {
      assert k < i ==> Sends(rs, qs, m, k);
    }
  }

  lemma SeenLater(rs: seq<nat>, qs: seq<nat>, m: map<nat, nat>, i: nat)
    requires Mapped(rs, qs, m, i) && i < |rs|
    ensures forall x | x in m :: Seen(rs, qs, i + 1, x, m[x])
  {
    forall x | x in m
      ensures Seen(rs, qs, i + 1, x, m[x])
    {
      assert Seen(rs, qs, i, x, m[x]);
      var k: nat :| k < i && rs[k] == x && qs[k] == m[x];
    }
  }

  lemma MapEnd(rs: seq<nat>, qs: seq<nat>, m: map<nat, nat>)
    requires Mapped(rs, qs, m, |rs|)
    ensures Follow(rs, qs)
  {
    forall x: nat, y: nat | x < |rs| && y < |rs| && rs[x] == rs[y]
      ensures qs[x] == qs[y]
    {
      assert Sends(rs, qs, m, x) && Sends(rs, qs, m, y);
    }
  }

  lemma RefinesLists(d: Dsu, f: Dsu, n: nat)
    requires d.Valid() && f.Valid() && d.Size() == f.Size() == n
    ensures Refines(d, f, n) <==> Follow(RootList(d), RootList(f))
  {
    var rs, qs := RootList(d), RootList(f);
    if Refines(d, f, n) {
      forall x: nat, y: nat | x < n && y < n && rs[x] == rs[y]
        ensures qs[x] == qs[y]
      {
        assert d.SameSet(x, y);
      }
    }
    if Follow(rs, qs) {
      forall x: nat, y: nat | x < n && y < n && d.SameSet(x, y)
        ensures f.SameSet(x, y)
      {
        assert rs[x] == rs[y];
      }
    }
  }

  lemma NextEdge(d: Dsu, edges: seq<Edge>, k: nat)
    requires k < |edges| && Spans(d, PairGraph(edges[..k])) && edges[k].src < d.Size() && edges[k].dst < d.Size()
    ensures Forestish(edges) ==> !d.SameSet(edges[k].src, edges[k].dst)
  {
    if Forestish(edges) {
      ForestishPrefix(edges, k);
    }
  }

  lemma MergeListed(d: Dsu, e: Dsu, edges: seq<Edge>, x: Edge)
    requires Spans(d, PairGraph(edges)) && Forestish(edges) && x.src < d.Size() && x.dst < d.Size()
    requires Joined(d, e, x.src, x.dst) && !d.SameSet(x.src, x.dst)
    ensures Spans(e, PairGraph(edges + [x])) && Forestish(edges + [x])
    ensures PairGraph(edges + [x]) == PairGraph(edges) + {Norm(x)}
  {
    ForestishSnoc(edges, x);
    PairGraphSnoc(edges, x);
    JoinedElsewhere(d, e, x.src, x.dst, Norm(x).src, Norm(x).dst);
    JoinSpans(d, e, PairGraph(edges), Norm(x));
  }

  /** The first k edges form a forest inside g, f spans it, and the matrix holds the rest of g. */
  ghost predicate Taken(left: Graph, g: Graph, f: Dsu, edges: seq<Edge>, k: nat)
    requires k <= |edges|
  {
    && Forestish(edges[..k]) && PairGraph(edges[..k]) <= g && left == g - PairGraph(edges[..k])
    && Spans(f, PairGraph(edges[..k]))
  }

  lemma NothingConnects(a: nat, b: nat)
    requires Connected({}, a, b)
    ensures a == b
  {
    assert Closed({}, iset{a});
  }

  /** An edge inside one set of the edges before it. */
  lemma RedundantEdge(adj: seq<seq<bool>>, n: nat, g: Graph, d: Dsu, edges: seq<Edge>, k: nat)
    requires Triangular(adj, n) && k < |edges| && Taken(GraphOf(adj), g, d, edges, k)
    requires edges[k].src < d.Size() && edges[k].dst < d.Size() && d.SameSet(edges[k].src, edges[k].dst)
    ensures !Strays(edges, g) && !(Forestish(edges) && PairGraph(edges) <= g)
    ensures k == 0 ==> Norm(edges[0]) !in g
  {
    if k == 0 {
      assert PairGraph(edges[..0]) == {};
      NothingConnects(edges[0].src, edges[0].dst);
      GraphHas(adj, n, Norm(edges[0]));
    }
    NextEdge(d, edges, k);
    assert edges[..k + 1] == edges[..k] + [edges[k]];
    ForestishSnoc(edges[..k], edges[k]);
    RedundantNotStrays(edges, g, k);
  }

  lemma NothingTaken(g: Graph, f: Dsu, edges: seq<Edge>)
    requires f == Singletons(f.prio)
    ensures Taken(g, g, f, edges, 0)
  {
    SingletonsSpanned(f.prio);
    assert PairGraph(edges[..0]) == {};
  }

  lemma AllTaken(left: Graph, g: Graph, f: Dsu, edges: seq<Edge>)
    requires Taken(left, g, f, edges, |edges|)
    ensures Forestish(edges) && PairGraph(edges) <= g && left == g - PairGraph(edges) && Spans(f, PairGraph(edges))
    ensures !Strays(edges, g)
  {
    assert edges[..|edges|] == edges;
    StraysNot(edges, g);
  }

  /** An edge that joins two of them makes a longer forest. */
  lemma LongerForest(left: Graph, g: Graph, d: Dsu, f: Dsu, edges: seq<Edge>, k: nat)
    requires k < |edges| && Taken(left, g, d, edges, k) && edges[k].src < d.Size() && edges[k].dst < d.Size()
    requires Joined(d, f, edges[k].src, edges[k].dst) && !d.SameSet(edges[k].src, edges[k].dst)
    ensures edges[k].src != edges[k].dst && Norm(edges[k]) !in PairGraph(edges[..k])
    ensures Forestish(edges[..k + 1]) && Spans(f, PairGraph(edges[..k + 1]))
    ensures PairGraph(edges[..k + 1]) == PairGraph(edges[..k]) + {Norm(edges[k])}
  {
    NotConnectedFresh(PairGraph(edges[..k]), edges[k]);
    MergeListed(d, f, edges[..k], edges[k]);
    assert edges[..k + 1] == edges[..k] + [edges[k]];
  }

  /** The edge is taken if the graph has it; otherwise it is the one that breaks the forest. */
  lemma TakenOne(left: Graph, g: Graph, d: Dsu, f: Dsu, edges: seq<Edge>, k: nat)
    requires k < |edges| && Taken(left, g, d, edges, k) && edges[k].src < d.Size() && edges[k].dst < d.Size()
    requires Joined(d, f, edges[k].src, edges[k].dst) && !d.SameSet(edges[k].src, edges[k].dst)
    ensures edges[k].src != edges[k].dst
    ensures Norm(edges[k]) in left ==> Norm(edges[k]) in g && Taken(SymDiff(left, {Norm(edges[k])}), g, f, edges, k + 1)
    ensures Norm(edges[k]) !in left ==> !(PairGraph(edges) <= g) && Strays(edges, g) && (k == 0 ==> Norm(edges[0]) !in g)
  {
    LongerForest(left, g, d, f, edges, k);
    var x := Norm(edges[k]);
    if x in left {
      assert g - PairGraph(edges[..k + 1]) == SymDiff(left, {x});
    } else {
      assert x in PairGraph(edges);
      assert StraysAt(edges, g, k);
      assert k == 0 ==> PairGraph(edges[..k]) == {};
    }
  }

  lemma ForestVerdict(d: Dsu, f: Dsu, edges: seq<Edge>, g: Graph, n: nat, ok: bool)
    requires Spans(d, g) && Spans(f, PairGraph(edges)) && d.Size() == f.Size() == n
    requires Forestish(edges) && PairGraph(edges) <= g && ok == Refines(d, f, n)
    ensures ok <==> SpanningForestOf(edges, g, n)
  {
    forall x: nat, y: nat | x < n && y < n
      ensures d.SameSet(x, y) <==> Connected(g, x, y)
      ensures f.SameSet(x, y) <==> Connected(PairGraph(edges), x, y)
      ensures Connected(PairGraph(edges), x, y) ==> Connected(g, x, y)
    {
      if Connected(PairGraph(edges), x, y) {
        ConnMono(PairGraph(edges), g, x, y);
      }
    }
  }

  lemma HalvedSpans(d: Dsu, e: Dsu, g: Graph)
    requires Spans(d, g) && SameRoots(d, e)
    ensures Spans(e, g) && e.Roots() == d.Roots()
  {
    forall x: nat, y: nat | x < d.Size() && y < d.Size()
      ensures e.SameSet(x, y) <==> Connected(g, x, y)
    {
      assert d.SameSet(x, y) <==> Connected(g, x, y);
    }
  }

  lemma XorToggles(a: seq<seq<bool>>, b: seq<seq<bool>>, c: seq<seq<bool>>, n: nat)
    requires Triangular(a, n) && Triangular(b, n) && Triangular(c, n)
    requires forall i: nat, j: nat | i < n && j < n - i :: c[i][j] == (a[i][j] != b[i][j])
    ensures GraphOf(c) == SymDiff(GraphOf(a), GraphOf(b))
  {
    forall e: Edge
      ensures e in GraphOf(c) <==> Present(c, e)
      ensures e in GraphOf(a) <==> Present(a, e)
      ensures e in GraphOf(b) <==> Present(b, e)
    {
      GraphHas(a, n, e);
      GraphHas(b, n, e);
      GraphHas(c, n, e);
    }
    var x, y := GraphOf(c), SymDiff(GraphOf(a), GraphOf(b));
    forall e | e in x
      ensures e in y
    {
      assert Present(c, e);
    }
    forall e | e in y
      ensures e in x
    {
      assert Present(a, e) != Present(b, e);
    }
  }
}
