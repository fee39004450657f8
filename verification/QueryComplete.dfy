// When a query that ends normally is right, whatever the schedule: the effect of racing
// labels on whole queries (src/cc_sketch_alg.cpp, boruvka_emulation).

module QueryComplete {
  import opened Counting
  import opened Pairing
  import opened Graphs
  import opened Buckets
  import opened DsuSpec
  import opened DsuFindRace
  import opened SketchSpec
  import opened SampleCount
  import opened Partition
  import opened RoundSpec
  import opened Cuts
  import opened BoruvkaSpec
  import opened Boruvka
  import M = MergeInstructions
  import H = LostHalving
  import S = Supernode
  import X = MissedComponent

  // Sets of at most five vertices are filed exactly

  /** Six vertices of one set are needed for one to be more than four links below the root. */
  lemma SmallSetIsLow(d: Dsu, root: nat)
    requires d.Valid() && |Class(d, root)| <= 5
    ensures LowSet(d, root)
  {
    forall a: nat | a < d.Size() && d.Root(a) == root
      ensures d.IsRoot(Grand(d, Grand(d, a)))
    {
      if !d.IsRoot(Grand(d, Grand(d, a))) {
        SixInSet(d, a);
      }
    }
  }

  lemma SixInSet(d: Dsu, a: nat)
    requires d.Valid() && a < d.Size() && !d.IsRoot(Grand(d, Grand(d, a)))
    ensures |Class(d, d.Root(a))| >= 6
  {
    var b := d.parent[a];
    var c := d.parent[b];
    var x := d.parent[c];
    var y := d.parent[x];
    var z := d.parent[y];
    Higher(d, a);
    Higher(d, b);
    Higher(d, c);
    Higher(d, x);
    Higher(d, y);
    SixDifferent(a, b, c, x, y, z);
    SubsetCard({a, b, c, x, y, z}, Class(d, d.Root(a)));
  }

  /** The parent of a vertex that is no root is another vertex of its set, nearer the top in rank. */
  lemma Higher(d: Dsu, a: nat)
    requires d.Valid() && a < d.Size() && d.parent[a] != a
    ensures d.parent[a] < d.Size() && d.Root(d.parent[a]) == d.Root(a)
    ensures a in Class(d, d.Root(a)) && d.parent[a] in Class(d, d.Root(a))
    ensures d.Rank(d.parent[a]) < d.Rank(a)
  {
    RankDrops(d, d.parent[a], a);
    InClass(d, a);
  }

  lemma InClass(d: Dsu, a: nat)
    requires d.Valid() && a < d.Size()
    ensures a in Class(d, d.Root(a)) && d.parent[a] < d.Size() && d.Root(d.parent[a]) == d.Root(a)
    ensures d.parent[a] in Class(d, d.Root(a))
  {
  }

  lemma SixDifferent(a: nat, b: nat, c: nat, x: nat, y: nat, z: nat)
    requires a != b && a != c && a != x && a != y && a != z && b != c && b != x && b != y && b != z
    requires c != x && c != y && c != z && x != y && x != z && y != z
    ensures |{a, b, c, x, y, z}| == 6
  {
    assert {a, b, c, x, y, z} == {a, b, c} + {x, y, z};
    assert |{a, b, c}| == 3 && |{x, y, z}| == 3;
  }

  /** Two sets of eleven vertices cannot both have six. */
  lemma OneIsSmall(d: Dsu, r: nat, q: nat)
    requires d.Valid() && d.Size() <= 11 && r != q
    ensures |Class(d, r)| <= 5 || |Class(d, q)| <= 5
  {
    var a, b := Class(d, r), Class(d, q);
    assert a !! b;
    SubsetCard(a + b, Range(0, d.Size()));
    RangeCard(0, d.Size());
    assert |a + b| == |a| + |b|;
  }

  /** A low set is filed exactly; with one thread every set is. */
  lemma LowIsExact(d: Dsu, threads: nat, r: Round, v: nat)
    requires SameRoots(d, r.d) && |r.mi| == d.Size() && M.Permutation(r.mi) && v < d.Size()
    requires M.FiledInSet(r.mi, d) && M.FiledWhereLow(r.mi, d, threads) && (threads == 1 || LowSet(d, d.Root(v)))
    ensures ClassExact(r, r.d.Root(v))
  {
    var root := d.Root(v);
    var x, y := Group(r.mi, root), Class(r.d, root);
    forall u | u in x
      ensures u in y
    {
      var k :| k in Range(0, |r.mi|) && r.mi[k].root == root && r.mi[k].child == u;
      assert d.SameSet(r.mi[k].root, r.mi[k].child);
    }
    forall u | u in y
      ensures u in x
    {
      var k := M.PlaceOf(r.mi, u);
      assert k in Range(0, |r.mi|) && r.mi[k].root == root;
    }
  }

  /** After regrouping with one thread or at most eleven vertices, no edge joins two sets filed wrongly. */
  lemma RegroupedCovers(threads: nat, r: Round, next: Round, g: Graph)
    requires Regrouped(threads, r, next) && r.s.d.Valid() && r.s.d.Size() == |r.mi| && M.Permutation(r.mi)
    requires Simple(g, |r.mi|) && (threads == 1 || |r.mi| <= 11)
    ensures Covered(next, g)
  {
    var d := r.s.d;
    M.OutcomeFiled(d, r.mi, threads, next.d, next.mi);
    forall e | e in g
      ensures CoveredEdge(next, e)
    {
      if !next.d.SameSet(e.src, e.dst) {
        assert d.Root(e.src) != d.Root(e.dst);
        EndFiled(d, threads, next, e);
      }
    }
  }

  lemma EndFiled(d: Dsu, threads: nat, next: Round, e: Edge)
    requires SameRoots(d, next.d) && |next.mi| == d.Size() && M.Permutation(next.mi) && e.src < d.Size() && e.dst < d.Size()
    requires M.FiledInSet(next.mi, d) && M.FiledWhereLow(next.mi, d, threads)
    requires d.Root(e.src) != d.Root(e.dst) && (threads == 1 || d.Size() <= 11)
    ensures ClassExact(next, next.d.Root(e.src)) || ClassExact(next, next.d.Root(e.dst))
  {
    if threads == 1 {
      LowIsExact(d, threads, next, e.src);
    } else {
      OneIsSmall(d, d.Root(e.src), d.Root(e.dst));
      var v := if |Class(d, d.Root(e.src))| <= 5 then e.src else e.dst;
      SmallSetIsLow(d, d.Root(v));
      LowIsExact(d, threads, next, v);
    }
  }

  /** So in every round of a query. */
  lemma AlwaysCovered(p: Params, vs: seq<seq<Bucket>>, prio: seq<nat>, threads: nat, trail: seq<Round>, k: nat, g: Graph)
    requires IsTrail(p, vs, prio, trail) && Grouped(threads, trail) && k < |trail|
    requires Simple(g, |vs|) && (threads == 1 || |vs| <= 11)
    ensures Covered(trail[k], g)
  {
    assert Finished(p, vs, k, trail[k]);
    if k == 0 {
      FirstExact(p, vs, prio, trail);
      ExactCovers(p, vs, 0, trail[0], g);
    } else {
      assert Finished(p, vs, k - 1, trail[k - 1]) && GroupedAt(threads, trail, k);
      S.Quiescent(trail[k - 1].s, trail[k - 1].f);
      RegroupedCovers(threads, trail[k - 1], trail[k], g);
    }
  }

  // Sets with open edges

  /** At most one vertex lies outside a set of six out of seven. */
  lemma OneOutside(n: nat, c: set<nat>, x: nat, y: nat)
    requires n <= 7 && c <= Range(0, n) && |c| >= 6 && x < n && y < n && x !in c && y !in c
    ensures x == y
  {
    RangeCard(0, n);
    SubsetCard(c + {x, y}, Range(0, n));
    assert |c + {x, y}| == |c| + |{x, y}|;
  }

  /** Of two different sets of at most seven vertices, one of which has six, the other has one. */
  lemma OthersSmall(d: Dsu, r: nat, q: nat)
    requires d.Valid() && d.Size() <= 7 && r != q && |Class(d, r)| >= 6
    ensures |Class(d, q)| <= 5
  {
    var a, b := Class(d, r), Class(d, q);
    SubsetCard(a + b, Range(0, d.Size()));
    RangeCard(0, d.Size());
    assert |a + b| == |a| + |b|;
  }

  /** The sets of at most five vertices were filed exactly. */
  ghost predicate SmallExact(r: Round) {
    r.d.Valid() && forall v: nat | v < r.d.Size() && |Class(r.d, r.d.Root(v))| <= 5 :: ClassExact(r, r.d.Root(v))
  }

  /** If a set of six of at most seven vertices is left with an open edge, the vertex at its far end was not asked. */
  lemma LastVertexJoins(p: Params, vs: seq<seq<Bucket>>, g: Graph, k: nat, r: Round, root: nat, x: Edge)
    requires Finished(p, vs, k, r) && Flushed(p, g, vs) && SoundRound(p, g, r) && |vs| <= 7 && SmallExact(r)
    requires !r.except && !r.s.failed && k < p.numSamples && x in g
    requires |Class(r.d, root)| >= 6 && (x.src in Class(r.d, root)) != (x.dst in Class(r.d, root))
    ensures r.s.d.SameSet(x.src, x.dst)
  {
    var w := if x.src in Class(r.d, root) then x.dst else x.src;
    var q := r.d.Root(w);
    OthersSmall(r.d, root, q);
    assert x in Cut(g, Class(r.d, q));
    var a := CrossingAsked(p, vs, g, k, r, w);
    S.Quiescent(r.s, r.f);
    assert a in g;
    FarEnds(r.d, r.s.d, g, root, w, x, a);
  }

  /** Both edges lead from the one vertex outside the set into it. */
  lemma FarEnds(d: Dsu, e: Dsu, g: Graph, root: nat, w: nat, x: Edge, a: Edge)
    requires Evolves(d, e) && Simple(g, d.Size()) && d.Size() <= 7 && |Class(d, root)| >= 6 && x in g && w < d.Size()
    requires w !in Class(d, root) && (x.src == w || x.dst == w) && (x.src in Class(d, root) || x.dst in Class(d, root))
    requires a in Cut(g, Class(d, d.Root(w))) && e.SameSet(a.src, a.dst)
    ensures e.SameSet(x.src, x.dst)
  {
    var c := Class(d, root);
    var near, far := if a.src in Class(d, d.Root(w)) then a.src else a.dst, if a.src in Class(d, d.Root(w)) then a.dst else a.src;
    OneOutside(d.Size(), c, w, near);
    if far !in c {
      OneOutside(d.Size(), c, w, far);
    }
    var inner := if x.src == w then x.dst else x.src;
    assert d.SameSet(inner, far) && e.SameSet(inner, far);
  }

  /** With at most seven vertices a set filed wrongly does not survive with an open edge. */
  lemma SurvivorsSmall(p: Params, vs: seq<seq<Bucket>>, g: Graph, k: nat, r: Round, root: nat)
    requires Finished(p, vs, k, r) && Flushed(p, g, vs) && SoundRound(p, g, r) && |vs| <= 7 && SmallExact(r)
    requires !r.except && !r.s.failed && k < p.numSamples && r.f <= g && root in Live(r.s.d, g)
    ensures ClassExact(r, root)
  {
    S.Quiescent(r.s, r.f);
    assert r.s.d.IsRoot(root) && r.d.IsRoot(root) && r.d.Root(root) == root;
    if |Class(r.d, root)| >= 6 {
      var x :| x in Cut(g, Class(r.s.d, root));
      assert r.s.d.Root(root) == root && !r.s.d.SameSet(x.src, x.dst);
      OnlyOneOutside(r.d, r.s.d, root, x);
      LastVertexJoins(p, vs, g, k, r, root, x);
    }
  }

  /** An edge that leaves the set afterwards left it before. */
  lemma OnlyOneOutside(d: Dsu, e: Dsu, root: nat, x: Edge)
    requires Evolves(d, e) && d.Size() <= 7 && |Class(d, root)| >= 6 && root < d.Size() && d.Root(root) == root
    requires x.src < d.Size() && x.dst < d.Size() && !e.SameSet(x.src, x.dst)
    ensures (x.src in Class(d, root)) != (x.dst in Class(d, root))
  {
    assert x.src in Class(d, root) && x.dst in Class(d, root) ==> d.SameSet(x.src, x.dst);
    if x.src !in Class(d, root) && x.dst !in Class(d, root) {
      OneOutside(d.Size(), Class(d, root), x.src, x.dst);
    }
  }

  lemma SmallExactAfter(threads: nat, r: Round, next: Round)
    requires Regrouped(threads, r, next) && r.s.d.Valid() && r.s.d.Size() == |r.mi| && M.Permutation(r.mi)
    ensures SmallExact(next)
  {
    var d := r.s.d;
    M.OutcomeFiled(d, r.mi, threads, next.d, next.mi);
    forall v: nat | v < d.Size() && |Class(next.d, next.d.Root(v))| <= 5
      ensures ClassExact(next, next.d.Root(v))
    {
      assert Class(next.d, next.d.Root(v)) == Class(d, d.Root(v));
      SmallSetIsLow(d, d.Root(v));
      LowIsExact(d, threads, next, v);
    }
  }

  lemma SmallExactAlways(p: Params, vs: seq<seq<Bucket>>, prio: seq<nat>, threads: nat, trail: seq<Round>, k: nat)
    requires IsTrail(p, vs, prio, trail) && Grouped(threads, trail) && k < |trail|
    ensures SmallExact(trail[k])
  {
    assert Finished(p, vs, k, trail[k]);
    if k == 0 {
      FirstExact(p, vs, prio, trail);
      forall v: nat | v < |vs|
        ensures ClassExact(trail[0], trail[0].d.Root(v))
      {
        GroupIsClass(trail[0].mi, trail[0].d, trail[0].d.Root(v));
      }
    } else {
      assert Finished(p, vs, k - 1, trail[k - 1]) && GroupedAt(threads, trail, k);
      S.Quiescent(trail[k - 1].s, trail[k - 1].f);
      SmallExactAfter(threads, trail[k - 1], trail[k]);
    }
  }

  /** What a query has linked before round k lies in the graph. */
  lemma InsideBefore(p: Params, vs: seq<seq<Bucket>>, g: Graph, prio: seq<nat>, trail: seq<Round>, k: nat)
    requires IsTrail(p, vs, prio, trail) && Flushed(p, g, vs) && SoundTrail(p, g, trail) && k < |trail|
    ensures trail[k].f <= g
  {
    TrailPrefix(p, vs, prio, trail, k + 1);
    TrailInsideGraph(p, vs, g, prio, trail[..k + 1]);
  }

  // Whole queries

  /** With one thread or at most eleven vertices, whatever the sketches' parameters, a normal end is right. */
  lemma EndsRight(p: Params, vs: seq<seq<Bucket>>, g: Graph, prio: seq<nat>, threads: nat, trail: seq<Round>)
    requires IsTrail(p, vs, prio, trail) && Grouped(threads, trail) && Flushed(p, g, vs) && SoundTrail(p, g, trail)
    requires |vs| > 0 && (threads == 1 || |vs| <= 11)
    requires var last := trail[|trail| - 1]; !last.except && !last.s.modified
    ensures Spans(trail[|trail| - 1].s.d, g)
  {
    AlwaysCovered(p, vs, prio, threads, trail, |trail| - 1, g);
    TrailComplete(p, vs, g, prio, trail);
  }

  /** With one thread or at most seven vertices, a round without a failed sample halves the sets with open edges. */
  lemma RoundHalves(p: Params, vs: seq<seq<Bucket>>, g: Graph, prio: seq<nat>, threads: nat, trail: seq<Round>, k: nat)
    requires IsTrail(p, vs, prio, trail) && Grouped(threads, trail) && Flushed(p, g, vs) && SoundTrail(p, g, trail)
    requires |vs| > 0 && (threads == 1 || |vs| <= 7) && k < |trail| && !trail[k].except && !trail[k].s.failed
    ensures LivesHalve(trail[k], g)
  {
    var r := trail[k];
    assert Finished(p, vs, k, r) && SoundRound(p, g, r);
    ThrowsIff(p, vs, k, r);
    InsideBefore(p, vs, g, prio, trail, k);
    if threads == 1 {
      ExactWhen(p, vs, prio, threads, trail, k);
      BoruvkaSpec.Halves(p, vs, g, k, r);
    } else {
      SmallExactAlways(p, vs, prio, threads, trail, k);
      SmallHalves(p, vs, g, k, r);
    }
  }

  lemma SmallHalves(p: Params, vs: seq<seq<Bucket>>, g: Graph, k: nat, r: Round)
    requires Finished(p, vs, k, r) && Flushed(p, g, vs) && SoundRound(p, g, r) && |vs| <= 7 && SmallExact(r)
    requires !r.except && !r.s.failed && k < p.numSamples && r.f <= g
    ensures LivesHalve(r, g)
  {
    forall root | root in Live(r.s.d, g)
      ensures ClassExact(r, root)
    {
      SurvivorsSmall(p, vs, g, k, r, root);
    }
    HalvesWhere(p, vs, g, k, r);
  }

  /**
   * A query that the threads can really run, on the sketches the engine makes for n vertices,
   * with honest checksums and all updates in place.
   */
  ghost predicate Queried(n: nat, threads: nat, num: nat, den: nat, p: Params, vs: seq<seq<Bucket>>, g: Graph,
                          prio: seq<nat>, trail: seq<Round>)
    requires n > 0 && den > 0
  {
    && |vs| == n && Configured(p, n, num, den)
    && IsTrail(p, vs, prio, trail) && Grouped(threads, trail) && Ran(p, vs, threads, trail)
    && Flushed(p, g, vs) && SoundTrail(p, g, trail)
  }

  ghost predicate EndsNormally(trail: seq<Round>) {
    trail != [] && !trail[|trail| - 1].except && !trail[|trail| - 1].s.modified
  }

  /** Every such query that ends normally, in either build, has found exactly the components of the graph. */
  ghost predicate AlwaysRight(n: nat, threads: nat, num: nat, den: nat, l0: bool)
    requires n > 0 && den > 0
  {
    forall p: Params, vs: seq<seq<Bucket>>, g: Graph, prio: seq<nat>, trail: seq<Round> |
      Queried(n, threads, num, den, p, vs, g, prio, trail) && p.l0 == l0 && EndsNormally(trail) ::
      Spans(trail[|trail| - 1].s.d, g)
  }

  /** Normal ends are always right with one thread, and with more up to eleven vertices and no further. */
  lemma AlwaysRightIff(n: nat, threads: nat, num: nat, den: nat, l0: bool)
    requires 1 <= threads <= n < NODE_LIMIT && den > 0
    ensures AlwaysRight(n, threads, num, den, l0) <==> threads == 1 || n <= 11
  {
    if threads == 1 || n <= 11 {
      forall p: Params, vs: seq<seq<Bucket>>, g: Graph, prio: seq<nat>, trail: seq<Round> |
        Queried(n, threads, num, den, p, vs, g, prio, trail) && p.l0 == l0 && EndsNormally(trail)
        ensures Spans(trail[|trail| - 1].s.d, g)
      {
        EndsRight(p, vs, g, prio, threads, trail);
      }
    } else {
      var p, vs, g, prio, trail := X.QueryMisses(n, threads, num, den, l0);
      assert Queried(n, threads, num, den, p, vs, g, prio, trail) && EndsNormally(trail);
    }
  }

  /** Every round of such a query in which no sample fails halves the sets with open edges. */
  ghost predicate AlwaysHalves(n: nat, threads: nat, num: nat, den: nat, l0: bool)
    requires n > 0 && den > 0
  {
    forall p: Params, vs: seq<seq<Bucket>>, g: Graph, prio: seq<nat>, trail: seq<Round>, k: nat |
      Queried(n, threads, num, den, p, vs, g, prio, trail) && p.l0 == l0 && Unfailing(trail, k) ::
      LivesHalve(trail[k], g)
  }

  ghost predicate Unfailing(trail: seq<Round>, k: nat) {
    k < |trail| && !trail[k].except && !trail[k].s.failed
  }

  /** Rounds always halve with one thread, and with more up to seven vertices and no further. */
  lemma AlwaysHalvesIff(n: nat, threads: nat, num: nat, den: nat, l0: bool)
    requires 1 <= threads <= n < NODE_LIMIT && den > 0
    ensures AlwaysHalves(n, threads, num, den, l0) <==> threads == 1 || n <= 7
  {
    if threads == 1 || n <= 7 {
      forall p: Params, vs: seq<seq<Bucket>>, g: Graph, prio: seq<nat>, trail: seq<Round>, k: nat |
        Queried(n, threads, num, den, p, vs, g, prio, trail) && p.l0 == l0 && Unfailing(trail, k)
        ensures LivesHalve(trail[k], g)
      {
        RoundHalves(p, vs, g, prio, threads, trail, k);
      }
    } else {
      var p, vs, g, prio, trail := H.HalvingLost(n, threads, num, den, l0);
      assert Queried(n, threads, num, den, p, vs, g, prio, trail) && Unfailing(trail, 1);
    }
  }
}
