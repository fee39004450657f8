// Parent forests ordered by priority, shared by both union-find variants of include/dsu.h.

module DsuSpec {
  import opened Counting
  import opened Graphs
  import opened Pairing

  datatype Dsu = Dsu(prio: seq<nat>, parent: seq<nat>) {

    function Size(): nat {
      |parent|
    }

    /** What order_edge decides: a higher priority wins, then the smaller id. */
    predicate Above(a: nat, b: nat)
      requires a < |prio| && b < |prio|
    {
      prio[a] > prio[b] || (prio[a] == prio[b] && a < b)
    }

    predicate IsRoot(i: nat)
      requires i < |parent|
    {
      parent[i] == i
    }

    /** Every parent pointer leads strictly upwards. */
    predicate Valid() {
      |prio| == |parent| &&
      forall i: nat | i < |parent| :: parent[i] < |parent| && (parent[i] == i || Above(parent[i], i))
    }

    ghost function Higher(i: nat): set<nat>
      requires i < |prio|
    {
      set j | j in Range(0, |prio|) && Above(j, i)
    }

    /** How many elements outrank i. */
    ghost function Rank(i: nat): nat
      requires i < |prio|
    {
      |Higher(i)|
    }

    ghost function Root(i: nat): (r: nat)
      requires Valid() && i < |parent|
      ensures r < |parent| && parent[r] == r
      ensures r == i || Above(r, i)
      decreases Rank(i)
    {
      if parent[i] == i then i else
      RankDrops(this, parent[i], i);
      Root(parent[i])
    }

    ghost predicate SameSet(a: nat, b: nat)
      requires Valid() && a < |parent| && b < |parent|
    {
      Root(a) == Root(b)
    }

    ghost function Roots(): set<nat> {
      set i | i in Range(0, |parent|) && IsRoot(i)
    }
  }

  /** The initial state and the one reset() restores: every element on its own. */
  function Singletons(prio: seq<nat>): Dsu {
    Dsu(prio, seq(|prio|, i requires 0 <= i => i))
  }

  lemma RankDrops(d: Dsu, a: nat, b: nat)
    requires a < |d.prio| && b < |d.prio| && d.Above(a, b)
    ensures d.Rank(a) < d.Rank(b)
  {
    assert a !in d.Higher(a) && a in d.Higher(b);
    SubsetCard(d.Higher(a), d.Higher(b) - {a});
    assert |d.Higher(b) - {a}| == |d.Higher(b)| - 1;
  }

  lemma RankBound(d: Dsu, a: nat)
    requires a < |d.prio|
    ensures d.Rank(a) < |d.prio|
  {
    SubsetCard(d.Higher(a), Range(0, |d.prio|) - {a});
    RangeCard(0, |d.prio|);
    assert |Range(0, |d.prio|) - {a}| == |d.prio| - 1;
  }

  /** A labelling constant along parent pointers and fixed on roots is Root. */
  lemma {:induction false} RootBy(d: Dsu, f: nat -> nat, i: nat)
    requires d.Valid() && i < d.Size()
    requires forall j: nat | j < d.Size() :: f(d.parent[j]) == f(j) && (d.parent[j] == j ==> f(j) == j)
    ensures d.Root(i) == f(i)
    decreases d.Rank(i)
  {
    if d.parent[i] != i {
      RankDrops(d, d.parent[i], i);
      RootBy(d, f, d.parent[i]);
    }
  }

  /** The root of a set is its member of highest priority, and of those the one with the smallest id. */
  lemma RootIsTop(d: Dsu, x: nat, y: nat)
    requires d.Valid() && x < d.Size() && y < d.Size() && d.SameSet(x, y)
    ensures d.SameSet(d.Root(x), x)
    ensures var r := d.Root(x); d.prio[y] < d.prio[r] || (d.prio[y] == d.prio[r] && r <= y)
  {
    assert d.Root(d.Root(x)) == d.Root(x);
    assert d.Root(y) == y || d.Above(d.Root(y), y);
  }

  /** The partition decides the roots, whatever the order of the merges and the halving in between. */
  lemma RootsFromPartition(d: Dsu, e: Dsu, x: nat)
    requires d.Valid() && e.Valid() && d.prio == e.prio && d.Size() == e.Size() && x < d.Size()
    requires forall y: nat, z: nat | y < d.Size() && z < d.Size() :: d.SameSet(y, z) <==> e.SameSet(y, z)
    ensures d.Root(x) == e.Root(x)
  {
    var r, q := d.Root(x), e.Root(x);
    RootIsTop(d, x, x);
    RootIsTop(e, x, x);
    assert d.SameSet(q, x) <==> e.SameSet(q, x);
    assert d.SameSet(r, x) <==> e.SameSet(r, x);
    RootIsTop(d, x, q);
    RootIsTop(e, x, r);
  }

  /** Sets only grow and a linked element never becomes a root again. */
  ghost predicate Evolves(d: Dsu, e: Dsu) {
    && d.Valid() && e.Valid() && d.prio == e.prio
    && (forall x: nat, y: nat | x < d.Size() && y < d.Size() && d.SameSet(x, y) :: e.SameSet(x, y))
    && (forall x: nat | x < d.Size() && !d.IsRoot(x) :: !e.IsRoot(x))
  }

  /** Only shortcuts were taken: every element keeps its root. */
  ghost predicate SameRoots(d: Dsu, e: Dsu) {
    && d.Valid() && e.Valid() && d.prio == e.prio
    && (forall x: nat | x < d.Size() :: e.Root(x) == d.Root(x))
    && (forall x: nat | x < d.Size() :: d.IsRoot(x) == e.IsRoot(x))
  }

  lemma EvolvesSame(d: Dsu)
    requires d.Valid()
    ensures Evolves(d, d)
  {
  }

  lemma EvolvesTrans(d: Dsu, e: Dsu, f: Dsu)
    requires Evolves(d, e) && Evolves(e, f)
    ensures Evolves(d, f)
  {
  }

  lemma SameRootsTrans(d: Dsu, e: Dsu, f: Dsu)
    requires SameRoots(d, e) && SameRoots(e, f)
    ensures SameRoots(d, f) && Evolves(d, f)
  {
  }

  lemma SameRootsJoin(d: Dsu, e: Dsu, u: nat, v: nat)
    requires SameRoots(d, e) && u < d.Size() && v < d.Size() && d.SameSet(u, v)
    ensures Joined(d, e, u, v) && Evolves(d, e) && e.Roots() == d.Roots()
  {
  }

  /** A path-halving store moves no element to another set. */
  lemma HalveKeepsSets(d: Dsu, u: nat, w: nat)
    requires d.Valid() && u < d.Size() && w < d.Size()
    requires !d.IsRoot(u) && d.Above(w, u) && d.SameSet(u, w)
    ensures SameRoots(d, d.(parent := d.parent[u := w]))
    ensures Evolves(d, d.(parent := d.parent[u := w]))
  {
    var e := d.(parent := d.parent[u := w]);
    var f := (x: nat) => if x < d.Size() then d.Root(x) else x;
    forall x: nat | x < d.Size()
      ensures e.Root(x) == d.Root(x)
    {
      RootBy(e, f, x);
    }
  }

  /** x and y end up together exactly when they were, or u and v bridge them. */
  ghost predicate Bridged(d: Dsu, u: nat, v: nat, x: nat, y: nat)
    requires d.Valid() && u < d.Size() && v < d.Size() && x < d.Size() && y < d.Size()
  {
    d.SameSet(x, y) || (d.SameSet(x, u) && d.SameSet(v, y)) || (d.SameSet(x, v) && d.SameSet(u, y))
  }

  ghost predicate Joined(d: Dsu, e: Dsu, u: nat, v: nat)
    requires u < d.Size() && v < d.Size()
  {
    && d.Valid() && e.Valid() && d.prio == e.prio
    && (forall x: nat, y: nat | x < d.Size() && y < d.Size() :: e.SameSet(x, y) <==> Bridged(d, u, v, x, y))
  }

  lemma LinkRoots(d: Dsu, a: nat, b: nat, x: nat)
    requires d.Valid() && a < d.Size() && b < d.Size() && x < d.Size()
    requires d.IsRoot(b) && d.Above(a, b)
    ensures d.Root(a) != b
    ensures d.(parent := d.parent[b := a]).Valid()
    ensures d.(parent := d.parent[b := a]).Root(x) == if d.Root(x) == b then d.Root(a) else d.Root(x)
  {
    var e := d.(parent := d.parent[b := a]);
    var f := (y: nat) => if y < d.Size() then if d.Root(y) == b then d.Root(a) else d.Root(y) else y;
    RootBy(e, f, x);
  }

  /** Hanging a root b under any a above it joins two sets that were distinct. */
  lemma LinkJoins(d: Dsu, a: nat, b: nat)
    requires d.Valid() && a < d.Size() && b < d.Size()
    requires d.IsRoot(b) && d.Above(a, b)
    ensures !d.SameSet(a, b)
    ensures Joined(d, d.(parent := d.parent[b := a]), a, b)
    ensures Evolves(d, d.(parent := d.parent[b := a]))
    ensures d.(parent := d.parent[b := a]).Roots() == d.Roots() - {b} && b in d.Roots()
  {
    var e := d.(parent := d.parent[b := a]);
    LinkRoots(d, a, b, b);
    forall x: nat, y: nat | x < d.Size() && y < d.Size()
      ensures e.SameSet(x, y) <==> Bridged(d, a, b, x, y)
    {
      LinkRoots(d, a, b, x);
      LinkRoots(d, a, b, y);
    }
  }

  /** The partition of d is the one the edges f generate. */
  ghost predicate Spans(d: Dsu, f: Graph)
  {
    && d.Valid()
    && Simple(f, d.Size())
    && (forall x: nat, y: nat | x < d.Size() && y < d.Size() :: d.SameSet(x, y) <==> Connected(f, x, y))
  }

  lemma {:induction false} SingletonRoot(prio: seq<nat>, x: nat)
    requires x < |prio|
    ensures Singletons(prio).Valid() && Singletons(prio).Root(x) == x
  {
  }

  lemma SingletonsSpanned(prio: seq<nat>)
    ensures Spans(Singletons(prio), {}) && Acyclic({})
    ensures |Singletons(prio).Roots()| == |prio|
  {
    var d := Singletons(prio);
    forall x: nat, y: nat | x < d.Size() && y < d.Size()
      ensures d.SameSet(x, y) <==> Connected({}, x, y)
    {
      SingletonRoot(prio, x);
      SingletonRoot(prio, y);
      assert Closed({}, iset{x});
    }
    RangeCard(0, |prio|);
    assert d.Roots() == Range(0, |prio|);
  }

  /** Every edge inside a class means connected vertices share a class. */
  lemma EdgesInsideClasses(d: Dsu, g: Graph, x: nat, y: nat)
    requires d.Valid() && Simple(g, d.Size()) && x < d.Size() && y < d.Size()
    requires forall e | e in g :: d.SameSet(e.src, e.dst)
    requires Connected(g, x, y)
    ensures d.SameSet(x, y)
  {
    var s := iset v | 0 <= v < d.Size() && d.SameSet(x, v);
    assert Closed(g, s);
  }

  /** After joining the sets of u and v, the forest with the edge (u, v) spans the new partition. */
  lemma JoinSpans(d: Dsu, e: Dsu, f: Graph, edge: Edge)
    requires Spans(d, f) && edge.src < edge.dst < d.Size()
    requires Joined(d, e, edge.src, edge.dst)
    ensures Spans(e, f + {edge})
  {
    var h := f + {edge};
    var u, v := edge.src, edge.dst;
    forall c | c in h
      ensures e.SameSet(c.src, c.dst)
    {
      if c in f {
        ConnEdge(f, c);
        assert Bridged(d, u, v, c.src, c.dst);
      } else {
        assert Bridged(d, u, v, u, v);
      }
    }
    forall x: nat, y: nat | x < d.Size() && y < d.Size()
      ensures e.SameSet(x, y) <==> Connected(h, x, y)
    {
      if e.SameSet(x, y) {
        assert Bridged(d, u, v, x, y);
        BridgeConnects(d, f, edge, x, y);
      }
      if Connected(h, x, y) {
        EdgesInsideClasses(e, h, x, y);
      }
    }
  }

  lemma BridgeConnects(d: Dsu, f: Graph, edge: Edge, x: nat, y: nat)
    requires Spans(d, f) && edge.src < edge.dst < d.Size() && x < d.Size() && y < d.Size()
    requires Bridged(d, edge.src, edge.dst, x, y)
    ensures Connected(f + {edge}, x, y)
  {
    var h := f + {edge};
    var u, v := edge.src, edge.dst;
    ConnEdge(h, edge);
    if d.SameSet(x, y) {
      ConnMono(f, h, x, y);
    } else if d.SameSet(x, u) && d.SameSet(v, y) {
      ConnMono(f, h, x, u);
      ConnMono(f, h, v, y);
      ConnTrans(h, x, u, v);
      ConnTrans(h, x, v, y);
    } else {
      ConnMono(f, h, x, v);
      ConnMono(f, h, u, y);
      ConnTrans(h, x, v, u);
      ConnTrans(h, x, u, y);
    }
  }

  /** Joined only depends on the sets of u and v, not on the elements chosen in them. */
  lemma JoinedElsewhere(d: Dsu, e: Dsu, a: nat, b: nat, u: nat, v: nat)
    requires a < d.Size() && b < d.Size() && u < d.Size() && v < d.Size()
    requires Joined(d, e, a, b)
    requires (d.SameSet(a, u) && d.SameSet(b, v)) || (d.SameSet(a, v) && d.SameSet(b, u))
    ensures Joined(d, e, u, v)
  {
    forall x: nat, y: nat | x < d.Size() && y < d.Size()
      ensures e.SameSet(x, y) <==> Bridged(d, u, v, x, y)
    {
      assert e.SameSet(x, y) <==> Bridged(d, a, b, x, y);
    }
  }

  /** A partition spanned by g has as many roots as g has components. */
  lemma RootsCountComponents(d: Dsu, g: Graph)
    requires Spans(d, g)
    ensures |d.Roots()| == |Leaders(g, d.Size())|
  {
    LeadersWithinRoots(d, g);
    RootsWithinLeaders(d, g);
  }

  lemma LeadersWithinRoots(d: Dsu, g: Graph)
    requires Spans(d, g)
    ensures |Leaders(g, d.Size())| <= |d.Roots()|
  {
    var n := d.Size();
    var up := (x: nat) => if x < n then d.Root(x) else x;
    forall x, y | x in Leaders(g, n) && y in Leaders(g, n) && up(x) == up(y)
      ensures x == y
    {
      assert d.SameSet(x, y) && d.SameSet(y, x);
    }
    InjectionCard(Leaders(g, n), d.Roots(), up);
  }

  lemma RootsWithinLeaders(d: Dsu, g: Graph)
    requires Spans(d, g)
    ensures |d.Roots()| <= |Leaders(g, d.Size())|
  {
    var n := d.Size();
    var down := (x: nat) => if x < n then Leader(d, x) else x;
    forall x | x in d.Roots()
      ensures down(x) in Leaders(g, n)
    {
      var l := Leader(d, x);
      forall u: nat | u < l
        ensures !Connected(g, u, l)
      {
        assert !d.SameSet(u, x);
        assert !d.SameSet(u, l);
      }
    }
    InjectionCard(d.Roots(), Leaders(g, n), down);
  }

  /** The least member of the class of x. */
  ghost function Leader(d: Dsu, x: nat): (l: nat)
    requires d.Valid() && x < d.Size()
    ensures l < d.Size() && d.SameSet(l, x)
    ensures forall u: nat | u < l :: !d.SameSet(u, x)
  {
    LeastFrom(d, x, 0)
  }

  ghost function LeastFrom(d: Dsu, x: nat, k: nat): (l: nat)
    requires d.Valid() && k <= x < d.Size()
    requires forall u: nat | u < k :: !d.SameSet(u, x)
    ensures l < d.Size() && d.SameSet(l, x)
    ensures forall u: nat | u < l :: !d.SameSet(u, x)
    decreases x - k
  {
    if d.SameSet(k, x) then k else LeastFrom(d, x, k + 1)
  }

  // Path halving

  /** How many links x is below its root. */
  ghost function Depth(d: Dsu, x: nat): nat
    requires d.Valid() && x < d.Size()
    decreases d.Rank(x)
  {
    if d.parent[x] == x then 0 else
    RankDrops(d, d.parent[x], x);
    1 + Depth(d, d.parent[x])
  }

  function Shortcut(d: Dsu, x: nat): (e: Dsu)
    requires d.Valid() && x < d.Size()
    ensures e.Size() == d.Size() && e.prio == d.prio
  {
    d.(parent := d.parent[x := d.parent[d.parent[x]]])
  }

  lemma ShortcutOk(d: Dsu, x: nat)
    requires d.Valid() && x < d.Size() && !d.IsRoot(d.parent[x])
    ensures var g := d.parent[d.parent[x]];
      g != x && d.Above(g, x) && Shortcut(d, x).Valid() && Shortcut(d, x).Rank(g) < d.Rank(x)
  {
    var g := d.parent[d.parent[x]];
    RankDrops(d, g, x);
    assert Shortcut(d, x).Higher(g) == d.Higher(g);
  }

  /** What find_root leaves: from x up, every second vertex hangs under its grandparent. */
  ghost function Halved(d: Dsu, x: nat): (e: Dsu)
    requires d.Valid() && x < d.Size()
    ensures e.Valid() && e.Size() == d.Size() && e.prio == d.prio
    decreases d.Rank(x)
  {
    if d.IsRoot(d.parent[x]) then d else
    ShortcutOk(d, x);
    Halved(Shortcut(d, x), d.parent[d.parent[x]])
  }

  lemma {:induction false} HalvedAbove(d: Dsu, x: nat, y: nat)
    requires d.Valid() && x < d.Size() && y < d.Size() && y != x && !d.Above(y, x)
    ensures Halved(d, x).parent[y] == d.parent[y]
    decreases d.Rank(x)
  {
    if !d.IsRoot(d.parent[x]) {
      ShortcutOk(d, x);
      HalvedAbove(Shortcut(d, x), d.parent[d.parent[x]], y);
    }
  }

  lemma {:induction false} DepthAgrees(d: Dsu, e: Dsu, x: nat)
    requires d.Valid() && e.Valid() && d.prio == e.prio && d.Size() == e.Size() && x < d.Size()
    requires forall y: nat | y < d.Size() && (y == x || d.Above(y, x)) :: e.parent[y] == d.parent[y]
    ensures Depth(e, x) == Depth(d, x)
    decreases d.Rank(x)
  {
    if d.parent[x] != x {
      RankDrops(d, d.parent[x], x);
      DepthAgrees(d, e, d.parent[x]);
    }
  }

  /** Path halving halves the path: a search from x leaves it half as deep, rounded up. */
  lemma {:induction false} HalvingHalves(d: Dsu, x: nat)
    requires d.Valid() && x < d.Size()
    ensures Depth(Halved(d, x), x) == (Depth(d, x) + 1) / 2
    decreases d.Rank(x)
  {
    var p := d.parent[x];
    if !d.IsRoot(p) {
      var e, g := Shortcut(d, x), d.parent[p];
      ShortcutOk(d, x);
      HalvingHalves(e, g);
      DepthAgrees(d, e, g);
      HalvedAbove(e, g, x);
      assert Depth(d, x) == 2 + Depth(d, g);
      assert Halved(d, x).parent[x] == g;
    }
  }

  /** The pairs handed to merge, as a graph: orientation and self pairs do not matter. */
  ghost function PairGraph(pairs: seq<Edge>): Graph {
    set e | e in pairs && e.src != e.dst :: Norm(e)
  }

  /**
   * After any sequence of merges, starting from singletons, two elements share a set
   * exactly when the pairs merged so far connect them.
   */
  lemma {:induction false} MergeSequence(prio: seq<nat>, ds: seq<Dsu>, pairs: seq<Edge>)
    requires |ds| == |pairs| + 1 && ds[0] == Singletons(prio)
    requires forall i: nat | i < |ds| :: ds[i].Valid() && ds[i].prio == prio
    requires forall i: nat | i < |pairs| ::
               pairs[i].src < ds[i].Size() && pairs[i].dst < ds[i].Size() &&
               Joined(ds[i], ds[i + 1], pairs[i].src, pairs[i].dst)
    ensures Spans(ds[|pairs|], PairGraph(pairs))
  {
    if pairs == [] {
      SingletonsSpanned(prio);
      assert PairGraph(pairs) == {};
    } else {
      var m := |pairs| - 1;
      var e := pairs[m];
      var init := pairs[..m];
      MergeSequence(prio, ds[..m + 1], init);
      var d, d' := ds[m], ds[m + 1];
      assert pairs == init + [e];
      if e.src == e.dst {
        assert PairGraph(pairs) == PairGraph(init);
        assert forall x: nat, y: nat | x < d.Size() && y < d.Size() ::
            d'.SameSet(x, y) <==> Bridged(d, e.src, e.dst, x, y);
      } else {
        JoinedElsewhere(d, d', e.src, e.dst, Norm(e).src, Norm(e).dst);
        JoinSpans(d, d', PairGraph(init), Norm(e));
        assert PairGraph(pairs) == PairGraph(init) + {Norm(e)};
      }
    }
  }
}
