// Undirected graphs, connectivity, forests and cuts.

module Counting {

  /** An injective map bounds the size of its domain. */
  lemma {:induction false} InjectionCard(a: set<nat>, b: set<nat>, f: nat -> nat)
    requires forall x | x in a :: f(x) in b
    requires forall x, y | x in a && y in a && f(x) == f(y) :: x == y
    ensures |a| <= |b|
    decreases a
  {
    if a != {} {
      var x :| x in a;
      InjectionCard(a - {x}, b - {f(x)}, f);
      assert |a - {x}| == |a| - 1;
      assert |b - {f(x)}| == |b| - 1;
    }
  }

  /** A subset as large as the whole is the whole. */
  lemma FullSubset(a: set<nat>, b: set<nat>)
    requires a <= b && |a| >= |b|
    ensures a == b
  {
    if exists x :: x in b && x !in a {
      var x :| x in b && x !in a;
      SubsetCard(a, b - {x});
      assert false;
    }
  }

  lemma {:induction false} SubsetCard<T>(a: set<T>, b: set<T>)
    requires a <= b
    ensures |a| <= |b|
    decreases a
  {
    if a != {} {
      var x :| x in a;
      SubsetCard(a - {x}, b - {x});
    }
  }

  function Range(lo: nat, hi: nat): (r: set<nat>)
    ensures forall k :: k in r <==> lo <= k < hi
    decreases hi - lo
  {
    if lo < hi then {lo} + Range(lo + 1, hi) else {}
  }

  lemma {:induction false} RangeCard(lo: nat, hi: nat)
    requires lo <= hi
    ensures |Range(lo, hi)| == hi - lo
    decreases hi - lo
  {
    if lo < hi {
      RangeCard(lo + 1, hi);
      assert Range(lo, hi) == {lo} + Range(lo + 1, hi);
    } else {
      assert Range(lo, hi) == {};
    }
  }

  function Total(s: seq<nat>): nat {
    if s == [] then 0 else Total(s[..|s| - 1]) + s[|s| - 1]
  }

  lemma {:induction false} TotalUpdate(s: seq<nat>, k: nat, x: nat)
    requires k < |s|
    ensures Total(s[k := x]) + s[k] == Total(s) + x
  {
    var m := |s| - 1;
    if k == m {
      assert s[k := x][..m] == s[..m];
    } else {
      TotalUpdate(s[..m], k, x);
      assert s[k := x][..m] == s[..m][k := x];
    }
  }

  lemma {:induction false} TotalAtLeast(s: seq<nat>, k: nat)
    requires k < |s|
    ensures s[k] <= Total(s)
  {
    if k < |s| - 1 {
      TotalAtLeast(s[..|s| - 1], k);
    }
  }

  lemma {:induction false} TotalConcat(a: seq<nat>, b: seq<nat>)
    ensures Total(a + b) == Total(a) + Total(b)
    decreases |b|
  {
    if b == [] {
      assert a + b == a;
    } else {
      assert (a + b)[..|a + b| - 1] == a + b[..|b| - 1];
      TotalConcat(a, b[..|b| - 1]);
    }
  }

  lemma TotalSlice(a: seq<nat>, lo: nat, mid: nat, hi: nat)
    requires lo <= mid <= hi <= |a|
    ensures Total(a[lo..hi]) == Total(a[lo..mid]) + Total(a[mid..hi])
  {
    assert a[lo..hi] == a[lo..mid] + a[mid..hi];
    TotalConcat(a[lo..mid], a[mid..hi]);
  }

  lemma TotalOne(a: seq<nat>, lo: nat, i: nat)
    requires lo <= i < |a|
    ensures Total(a[lo..i + 1]) == Total(a[lo..i]) + a[i]
  {
    assert a[lo..i + 1][..i - lo] == a[lo..i];
  }

  lemma OneFewer(b: set<nat>, a: set<nat>, x: nat)
    requires b <= a && x in a && x !in b
    ensures |b| < |a|
  {
    SubsetCard(b, a - {x});
  }

  /** An injection of 0..n into itself hits every cell. */
  lemma Pigeonhole(n: nat, f: nat -> nat, c: nat)
    requires c < n && forall k: nat | k < n :: f(k) < n
    requires forall k: nat, m: nat | k < n && m < n && f(k) == f(m) :: k == m
    ensures exists k: nat :: k < n && f(k) == c
  {
    var all := Range(0, n);
    forall x, y | x in all && y in all && f(x) == f(y)
      ensures x == y
    {
    }
    NoneMissed(all, Range(0, n), f, c);
    var k :| k in all && f(k) == c;
  }

  /** An injection of a finite set into one that is no larger hits every element. */
  lemma NoneMissed(a: set<nat>, b: set<nat>, f: nat -> nat, c: nat)
    requires c in b && |b| <= |a| && forall x | x in a :: f(x) in b
    requires forall x, y | x in a && y in a && f(x) == f(y) :: x == y
    ensures exists k :: k in a && f(k) == c
  {
    var image := set x | x in a :: f(x);
    forall x | x in a
      ensures f(x) in image
    {
    }
    InjectionCard(a, image, f);
    FullSubset(image, b);
    var k :| k in a && f(k) == c;
  }
}

module Graphs {
  import opened Counting
  import opened Pairing

  type Graph = set<Edge>

  /** No edge leaves s. */
  ghost predicate Closed(g: Graph, s: iset<nat>) {
    forall e | e in g :: e.src in s <==> e.dst in s
  }

  /** b lies in every closed set around a; ConnectedIffPath says this is reachability. */
  ghost predicate Connected(g: Graph, a: nat, b: nat) {
    forall s: iset<nat> | Closed(g, s) && a in s :: b in s
  }

  predicate Adjacent(g: Graph, a: nat, b: nat) {
    Edge(a, b) in g || Edge(b, a) in g
  }

  predicate IsPath(g: Graph, p: seq<nat>) {
    p != [] && forall k | 0 <= k < |p| - 1 :: Adjacent(g, p[k], p[k + 1])
  }

  ghost predicate Reaches(g: Graph, a: nat, b: nat) {
    exists p :: IsPath(g, p) && p[0] == a && p[|p| - 1] == b
  }

  lemma {:induction false} PathStaysInside(g: Graph, p: seq<nat>, s: iset<nat>)
    requires IsPath(g, p) && Closed(g, s) && p[0] in s
    ensures p[|p| - 1] in s
    decreases |p|
  {
    if |p| > 1 {
      assert Adjacent(g, p[0], p[1]);
      var q := p[1..];
      forall k | 0 <= k < |q| - 1
        ensures Adjacent(g, q[k], q[k + 1])
      {
        assert Adjacent(g, p[k + 1], p[k + 1 + 1]);
      }
      PathStaysInside(g, q, s);
    }
  }

  lemma PathExtend(g: Graph, a: nat, b: nat, c: nat)
    requires Reaches(g, a, b) && Adjacent(g, b, c)
    ensures Reaches(g, a, c)
  {
    var p :| IsPath(g, p) && p[0] == a && p[|p| - 1] == b;
    assert IsPath(g, p + [c]);
  }

  /** Connectivity through closed sets is connectivity through paths. */
  lemma ConnectedIffPath(g: Graph, a: nat, b: nat)
    ensures Connected(g, a, b) <==> Reaches(g, a, b)
  {
    if Reaches(g, a, b) {
      var p :| IsPath(g, p) && p[0] == a && p[|p| - 1] == b;
      forall s: iset<nat> | Closed(g, s) && a in s
        ensures b in s
      {
        PathStaysInside(g, p, s);
      }
    }
    if Connected(g, a, b) {
      var s := iset v | Reaches(g, a, v);
      assert IsPath(g, [a]);
      assert a in s;
      forall e | e in g
        ensures e.src in s <==> e.dst in s
      {
        if e.src in s {
          PathExtend(g, a, e.src, e.dst);
        }
        if e.dst in s {
          PathExtend(g, a, e.dst, e.src);
        }
      }
      assert Closed(g, s);
    }
  }

  lemma ConnSym(g: Graph, a: nat, b: nat)
    requires Connected(g, a, b)
    ensures Connected(g, b, a)
  {
    forall s: iset<nat> | Closed(g, s) && b in s
      ensures a in s
    {
      var out := iset v | v !in s;
      assert Closed(g, out);
    }
  }

  lemma ConnTrans(g: Graph, a: nat, b: nat, c: nat)
    requires Connected(g, a, b) && Connected(g, b, c)
    ensures Connected(g, a, c)
  {
  }

  lemma ConnEdge(g: Graph, e: Edge)
    requires e in g
    ensures Connected(g, e.src, e.dst) && Connected(g, e.dst, e.src)
  {
  }

  lemma ConnMono(g: Graph, h: Graph, a: nat, b: nat)
    requires g <= h && Connected(g, a, b)
    ensures Connected(h, a, b)
  {
    forall s: iset<nat> | Closed(h, s) && a in s
      ensures b in s
    {
      assert Closed(g, s);
    }
  }

  /** The connected component of a. */
  ghost function Comp(g: Graph, a: nat): iset<nat> {
    iset v | Connected(g, a, v)
  }

  lemma CompClosed(g: Graph, a: nat)
    ensures Closed(g, Comp(g, a)) && a in Comp(g, a)
  {
    forall e | e in g
      ensures e.src in Comp(g, a) <==> e.dst in Comp(g, a)
    {
      ConnEdge(g, e);
    }
  }

  /** A forest: removing any edge disconnects its endpoints. */
  ghost predicate Acyclic(f: Graph) {
    forall e | e in f :: !Connected(f - {e}, e.src, e.dst)
  }

  /** Joining two components of a forest by an edge leaves a forest. */
  lemma AcyclicAdd(f: Graph, e: Edge)
    requires Acyclic(f) && !Connected(f, e.src, e.dst)
    ensures Acyclic(f + {e})
  {
    if e in f {
      ConnEdge(f, e);
    }
    forall d | d in f + {e}
      ensures !Connected(f + {e} - {d}, d.src, d.dst)
    {
      if d == e {
        assert f + {e} - {d} == f;
      } else {
        AcyclicAddOther(f, e, d);
      }
    }
  }

  lemma AcyclicAddOther(f: Graph, e: Edge, d: Edge)
    requires Acyclic(f) && !Connected(f, e.src, e.dst) && d in f && d != e
    ensures !Connected(f + {e} - {d}, d.src, d.dst)
  {
    var h := f - {d};
    var near := Comp(h, d.src);
    // The far end of e, when e leaves the component of d.src.
    var far := if e.src in near && e.dst !in near then Comp(h, e.dst)
               else if e.dst in near && e.src !in near then Comp(h, e.src)
               else iset{};
    var s := near + far;
    CompClosed(h, d.src);
    CompClosed(h, e.dst);
    CompClosed(h, e.src);
    assert Closed(h, s);
    assert f + {e} - {d} == h + {e};
    assert Closed(h + {e}, s);
    if d.dst in s {
      assert d.dst in far;
      var x, y := if e.src in near then e.src else e.dst, if e.src in near then e.dst else e.src;
      assert Connected(h, d.src, x) && Connected(h, y, d.dst);
      ConnMono(h, f, d.src, x);
      ConnMono(h, f, y, d.dst);
      ConnEdge(f, d);
      ConnTrans(f, y, d.dst, d.src);
      ConnTrans(f, y, d.src, x);
      if x == e.src {
        ConnSym(f, y, x);
      }
      assert false;
    }
  }

  /** The least vertex of every component of g among the vertices 0..n. */
  ghost function Leaders(g: Graph, n: nat): set<nat> {
    set v | v in Range(0, n) && (forall u | 0 <= u < v :: !Connected(g, u, v))
  }

  /** Edges with exactly one endpoint in c. */
  ghost function Cut(g: Graph, c: set<nat>): Graph {
    set e | e in g && (e.src in c) != (e.dst in c)
  }

  ghost function Incident(g: Graph, v: nat): Graph {
    set e | e in g && (e.src == v || e.dst == v)
  }

  /** Simple graphs on the vertices 0..n: no self loops, each edge stored once. */
  ghost predicate Simple(g: Graph, n: nat) {
    forall e | e in g :: e.src < e.dst < n
  }
}
