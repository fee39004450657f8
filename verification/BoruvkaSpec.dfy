// Why Boruvka over sketches is correct: what one finished round says about the graph,
// and how fast components with open edges disappear (src/cc_sketch_alg.cpp, lines 464-513).

module BoruvkaSpec {
  import opened Counting
  import opened Pairing
  import opened Graphs
  import opened Words
  import opened Buckets
  import opened DsuSpec
  import opened SketchSpec
  import opened Partition
  import opened RoundSpec
  import opened SampleLog
  import opened Cuts
  import M = MergeInstructions
  import S = Supernode
  import Z = RoundZero

  /** A finished round: its instructions, what it started from, and what it left. */
  datatype Round = Round(mi: seq<MergeInstr>, d: Dsu, f: Graph, s: S.Sys, except: bool, log: seq<Entry>)

  ghost predicate Finished(p: Params, vs: seq<seq<Bucket>>, k: nat, r: Round) {
    && p.Valid() && RoundOk(p, vs, k, r.mi, r.d, r.f, r.s, r.except, r.log)
    && |r.mi| == |vs| == r.d.Size() == r.s.d.Size() && M.Permutation(r.mi) && S.ForestOf(r.d, r.f)
  }

  /** Every vertex was filed under the root of its set. */
  ghost predicate Exact(r: Round) {
    M.FiledUnderRoot(r.mi, r.d)
  }

  /** The vertices filed under root are exactly its set. */
  ghost predicate ClassExact(r: Round, root: nat)
    requires r.d.Valid()
  {
    Group(r.mi, root) == Class(r.d, root)
  }

  /** One of the two sets that an edge connects, if any, was filed exactly. */
  ghost predicate CoveredEdge(r: Round, e: Edge) {
    r.d.Valid() && (e.src < r.d.Size() && e.dst < r.d.Size() && !r.d.SameSet(e.src, e.dst) ==>
      ClassExact(r, r.d.Root(e.src)) || ClassExact(r, r.d.Root(e.dst)))
  }

  /** No edge of the graph connects two sets that were both filed wrongly. */
  ghost predicate Covered(r: Round, g: Graph) {
    forall e | e in g :: CoveredEdge(r, e)
  }

  /** The checksum hypothesis, for the cuts this round sampled and no others. */
  ghost predicate SoundRound(p: Params, g: Graph, r: Round)
    requires p.Valid() && Simple(g, NODE_LIMIT)
  {
    forall k: nat | k < |r.mi| :: SoundCut(p, g, Group(r.mi, r.mi[k].root))
  }

  /** The vertices of the set with root r. */
  ghost function Class(d: Dsu, r: nat): set<nat>
    requires d.Valid()
  {
    set v | v in Range(0, d.Size()) && d.Root(v) == r
  }

  lemma GroupInside(mi: seq<MergeInstr>, root: nat)
    requires M.Permutation(mi)
    ensures Group(mi, root) <= Range(0, |mi|)
  {
  }

  lemma Filed(mi: seq<MergeInstr>, d: Dsu, v: nat) returns (k: nat)
    requires M.Permutation(mi) && M.FiledUnderRoot(mi, d) && |mi| == d.Size() && v < |mi|
    ensures k < |mi| && mi[k] == MergeInstr(d.Root(v), v)
  {
    k := M.PlaceOf(mi, v);
  }

  /** With exact labels the groups of a round are the sets of the union-find. */
  lemma GroupIsClass(mi: seq<MergeInstr>, d: Dsu, root: nat)
    requires M.Permutation(mi) && M.FiledUnderRoot(mi, d) && |mi| == d.Size()
    ensures Group(mi, root) == Class(d, root)
  {
    forall v | v in Class(d, root)
      ensures v in Group(mi, root)
    {
      var k := Filed(mi, d, v);
      assert k in Range(0, |mi|);
    }
  }

  // What the samples of a round were

  lemma AskedInGraph(p: Params, vs: seq<seq<Bucket>>, g: Graph, k: nat, r: Round, a: nat)
    requires Finished(p, vs, k, r) && Flushed(p, g, vs) && SoundRound(p, g, r) && a < |r.log|
    ensures var o := r.log[a].outcome;
      && (o.OutOfSamples? <==> k >= p.numSamples)
      && (o.GoodSample? ==> InvConcatPairing(o.idx) in g)
  {
    assert EntryRight(p, vs, k, r.mi, r.log[a]);
    var m: nat :| m < |r.mi| && r.mi[m].root == r.log[a].root;
    GroupInside(r.mi, r.mi[m].root);
    CutSample(p, g, vs, Group(r.mi, r.mi[m].root), k);
  }

  /** Whatever the labels: every edge sampled and every edge linked is an edge of the graph. */
  lemma RoundInsideGraph(p: Params, vs: seq<seq<Bucket>>, g: Graph, k: nat, r: Round)
    requires Finished(p, vs, k, r) && Flushed(p, g, vs) && SoundRound(p, g, r)
    ensures r.s.asked <= g && !r.s.wild
    ensures r.f <= g ==> r.s.forest <= g
  {
    forall e | Caused(r.log, e)
      ensures e in g
    {
      var a: nat :| a < |r.log| && r.log[a].outcome.GoodSample? && InvConcatPairing(r.log[a].outcome.idx) == e;
      AskedInGraph(p, vs, g, k, r, a);
    }
    S.Quiescent(r.s, r.f);
    forall x | x in r.s.forest && x !in r.f
      ensures x in g
    {
      assert S.Fresh(r.s, x);
      var e :| e in r.s.asked && Norm(e) == x;
      assert Caused(r.log, e);
    }
  }

  /** A round throws exactly when its number is past the last sample. */
  lemma ThrowsIff(p: Params, vs: seq<seq<Bucket>>, k: nat, r: Round)
    requires Finished(p, vs, k, r) && |vs| > 0
    ensures r.except <==> k >= p.numSamples
  {
    if r.except {
      var a: nat :| a < |r.log| && r.log[a].outcome == OutOfSamples;
      assert EntryRight(p, vs, k, r.mi, r.log[a]);
    }
    if k >= p.numSamples {
      assert Logged(r.log, r.mi[0].root);
      var a: nat :| a < |r.log| && r.log[a].root == r.mi[0].root;
      assert EntryRight(p, vs, k, r.mi, r.log[a]);
      assert Noted(r.s, r.except, r.log[a].outcome);
    }
  }

  /** A set with an open edge was answered with one that crosses its boundary. */
  lemma CrossingAsked(p: Params, vs: seq<seq<Bucket>>, g: Graph, k: nat, r: Round, v: nat) returns (e: Edge)
    requires Finished(p, vs, k, r) && Flushed(p, g, vs) && SoundRound(p, g, r)
    requires v < |vs| && ClassExact(r, r.d.Root(v))
    requires !r.except && !r.s.failed && k < p.numSamples && Cut(g, Class(r.d, r.d.Root(v))) != {}
    ensures e in r.s.asked && e in Cut(g, Class(r.d, r.d.Root(v)))
  {
    var root := r.d.Root(v);
    assert v in Class(r.d, root) && v in Group(r.mi, root);
    var m: nat :| m in Range(0, |r.mi|) && r.mi[m].root == root;
    assert Logged(r.log, r.mi[m].root);
    var a: nat :| a < |r.log| && r.log[a].root == root;
    assert EntryRight(p, vs, k, r.mi, r.log[a]);
    GroupInside(r.mi, root);
    assert SoundCut(p, g, Group(r.mi, r.mi[m].root));
    CutSample(p, g, vs, Group(r.mi, root), k);
    assert Noted(r.s, r.except, r.log[a].outcome);
    e := InvConcatPairing(r.log[a].outcome.idx);
    assert Caused(r.log, e);
    RoundInsideGraph(p, vs, g, k, r);
  }

  // A round that changes nothing

  /** Two union-finds spanned by the same forest have the same sets. */
  lemma SamePartition(d: Dsu, e: Dsu, f: Graph, x: nat, y: nat)
    requires Spans(d, f) && Spans(e, f) && d.Size() == e.Size() && x < d.Size() && y < d.Size()
    ensures d.SameSet(x, y) <==> e.SameSet(x, y)
  {
  }

  /** With exact labels every set is filed exactly. */
  lemma ExactCovers(p: Params, vs: seq<seq<Bucket>>, k: nat, r: Round, g: Graph)
    requires Finished(p, vs, k, r) && Exact(r)
    ensures Covered(r, g)
  {
    forall e | e in g && e.src < r.d.Size()
      ensures ClassExact(r, r.d.Root(e.src))
    {
      GroupIsClass(r.mi, r.d, r.d.Root(e.src));
    }
  }

  /** In a round that changes nothing, a set that was filed exactly has no open edge. */
  lemma QuietSet(p: Params, vs: seq<seq<Bucket>>, g: Graph, k: nat, r: Round, v: nat)
    requires Finished(p, vs, k, r) && Flushed(p, g, vs) && SoundRound(p, g, r) && v < |vs| && ClassExact(r, r.d.Root(v))
    requires !r.except && !r.s.modified && k < p.numSamples
    ensures Cut(g, Class(r.d, r.d.Root(v))) == {}
  {
    QuietAsked(p, vs, k, r);
    if Cut(g, Class(r.d, r.d.Root(v))) != {} {
      var x := CrossingAsked(p, vs, g, k, r, v);
    }
  }

  /** In a round that changes nothing, no sample failed and every sampled edge lies inside a set. */
  lemma QuietAsked(p: Params, vs: seq<seq<Bucket>>, k: nat, r: Round)
    requires Finished(p, vs, k, r) && !r.s.modified
    ensures !r.s.failed && forall x | x in r.s.asked :: x.src < r.d.Size() && x.dst < r.d.Size() && r.d.SameSet(x.src, x.dst)
  {
    S.Quiescent(r.s, r.f);
    forall x | x in r.s.asked
      ensures r.d.SameSet(x.src, x.dst)
    {
      SamePartition(r.d, r.s.d, r.f, x.src, x.dst);
    }
  }

  lemma QuietEdge(p: Params, vs: seq<seq<Bucket>>, g: Graph, k: nat, r: Round, e: Edge)
    requires Finished(p, vs, k, r) && Flushed(p, g, vs) && SoundRound(p, g, r) && CoveredEdge(r, e) && e in g
    requires !r.except && !r.s.modified && k < p.numSamples
    ensures r.d.SameSet(e.src, e.dst)
  {
    if !r.d.SameSet(e.src, e.dst) {
      var v := if ClassExact(r, r.d.Root(e.src)) then e.src else e.dst;
      assert e in Cut(g, Class(r.d, r.d.Root(v)));
      QuietSet(p, vs, g, k, r, v);
    }
  }

  /**
   * A round that reports no change, on honest checksums and with no edge between two sets that
   * were both filed wrongly, proves that the sets of the union-find are the connected
   * components of the graph.
   */
  lemma UnmodifiedIsComplete(p: Params, vs: seq<seq<Bucket>>, g: Graph, k: nat, r: Round)
    requires Finished(p, vs, k, r) && Flushed(p, g, vs) && SoundRound(p, g, r) && Covered(r, g)
    requires !r.except && !r.s.modified && k < p.numSamples && r.f <= g
    ensures Spans(r.s.d, g) && r.s.forest <= g
  {
    S.Quiescent(r.s, r.f);
    RoundInsideGraph(p, vs, g, k, r);
    forall e | e in g
      ensures r.s.d.SameSet(e.src, e.dst)
    {
      assert CoveredEdge(r, e);
      QuietEdge(p, vs, g, k, r, e);
      SamePartition(r.d, r.s.d, r.f, e.src, e.dst);
    }
    ForestAndEdges(r.s.d, r.s.forest, g);
  }

  /** A forest inside g spans g's components once every edge of g lies inside one set. */
  lemma ForestAndEdges(d: Dsu, f: Graph, g: Graph)
    requires Spans(d, f) && f <= g && Simple(g, d.Size())
    requires forall e | e in g :: d.SameSet(e.src, e.dst)
    ensures Spans(d, g)
  {
    forall x: nat, y: nat | x < d.Size() && y < d.Size()
      ensures d.SameSet(x, y) <==> Connected(g, x, y)
    {
      if d.SameSet(x, y) {
        ConnMono(f, g, x, y);
      }
      if Connected(g, x, y) {
        EdgesInsideClasses(d, g, x, y);
      }
    }
  }

  // Halving

  /** The roots of the sets that some edge of the graph leaves. */
  ghost function Live(d: Dsu, g: Graph): set<nat>
    requires d.Valid()
  {
    set r | r in d.Roots() && Cut(g, Class(d, r)) != {}
  }

  lemma CrossesMeansLive(d: Dsu, g: Graph, e: Edge)
    requires d.Valid() && Simple(g, d.Size()) && e in g && !d.SameSet(e.src, e.dst)
    ensures d.Root(e.src) in Live(d, g) && d.Root(e.dst) in Live(d, g)
  {
    assert e in Cut(g, Class(d, d.Root(e.src))) && e in Cut(g, Class(d, d.Root(e.dst)));
  }

  /** A set no edge leaves stays as it is when only edges of the graph are linked. */
  lemma DeadStaysDead(d: Dsu, e: Dsu, g: Graph, f: Graph, r: nat)
    requires d.Valid() && Spans(e, f) && f <= g && Simple(g, d.Size()) && Evolves(d, e)
    requires r in e.Roots() && Cut(g, Class(d, r)) == {}
    ensures r in d.Roots() && Class(e, r) == Class(d, r)
  {
    assert d.IsRoot(r) && d.Root(r) == r;
    var s := iset v | v in Class(d, r);
    forall x | x in g
      ensures x.src in s <==> x.dst in s
    {
      assert x !in Cut(g, Class(d, r));
    }
    assert Closed(g, s);
    forall v | v in Class(e, r)
      ensures v in Class(d, r)
    {
      assert e.SameSet(r, v);
      ConnMono(f, g, r, v);
    }
    forall v | v in Class(d, r)
      ensures v in Class(e, r)
    {
      assert d.SameSet(r, v);
      assert e.SameSet(r, v);
    }
  }

  lemma LiveShrinks(d: Dsu, e: Dsu, g: Graph, f: Graph)
    requires d.Valid() && Spans(e, f) && f <= g && Simple(g, d.Size()) && Evolves(d, e)
    ensures Live(e, g) <= Live(d, g)
  {
    forall r | r in Live(e, g)
      ensures r in Live(d, g)
    {
      assert d.IsRoot(r);
      if Cut(g, Class(d, r)) == {} {
        DeadStaysDead(d, e, g, f, r);
      }
    }
  }

  /** The old root on the far side of the edge that the set of r was joined by. */
  ghost predicate Partner(d: Dsu, e: Dsu, g: Graph, r: nat, q: nat)
    requires d.Valid() && e.Valid() && d.Size() == e.Size()
  {
    q in Live(d, g) && q < e.Size() && q != r && e.Root(q) == r
  }

  lemma ExactCrossing(p: Params, vs: seq<seq<Bucket>>, g: Graph, k: nat, r: Round, root: nat) returns (e: Edge)
    requires Finished(p, vs, k, r) && Flushed(p, g, vs) && SoundRound(p, g, r)
    requires !r.except && !r.s.failed && k < p.numSamples && root in Live(r.d, g) && ClassExact(r, root)
    ensures e in r.s.asked && e in Cut(g, Class(r.d, root))
  {
    assert r.d.Root(root) == root;
    e := CrossingAsked(p, vs, g, k, r, root);
  }

  lemma PartnerOf(p: Params, vs: seq<seq<Bucket>>, g: Graph, k: nat, r: Round, root: nat) returns (q: nat)
    requires Finished(p, vs, k, r) && Flushed(p, g, vs) && SoundRound(p, g, r)
    requires !r.except && !r.s.failed && k < p.numSamples && r.f <= g && root in Live(r.s.d, g) && ClassExact(r, root)
    ensures r.s.d.Valid() && Partner(r.d, r.s.d, g, root, q)
  {
    S.Quiescent(r.s, r.f);
    RoundInsideGraph(p, vs, g, k, r);
    LiveShrinks(r.d, r.s.d, g, r.s.forest);
    assert root in Live(r.d, g) && r.d.Root(root) == root && r.s.d.Root(root) == root;
    var e := ExactCrossing(p, vs, g, k, r, root);
    q := PartnerBy(r.d, r.s.d, g, root, e);
  }

  /** The far end of an edge that leaves the set of root and lies inside a set afterwards. */
  lemma PartnerBy(d: Dsu, e: Dsu, g: Graph, root: nat, x: Edge) returns (q: nat)
    requires Evolves(d, e) && Simple(g, d.Size()) && x in Cut(g, Class(d, root)) && e.SameSet(x.src, x.dst)
    requires root < d.Size() && d.Root(root) == root && e.Root(root) == root
    ensures Partner(d, e, g, root, q)
  {
    CrossesMeansLive(d, g, x);
    var inner, outer := if x.src in Class(d, root) then x.src else x.dst, if x.src in Class(d, root) then x.dst else x.src;
    q := d.Root(outer);
    assert d.SameSet(root, inner) && e.SameSet(root, inner);
    assert d.SameSet(q, outer) && e.SameSet(q, outer);
  }

  ghost function PartnerMap(d: Dsu, e: Dsu, g: Graph): nat -> nat
    requires d.Valid() && e.Valid() && d.Size() == e.Size()
    requires forall r | r in Live(e, g) :: exists q: nat :: Partner(d, e, g, r, q)
  {
    (r: nat) =>
      if d.Valid() && e.Valid() && d.Size() == e.Size() && exists q: nat :: Partner(d, e, g, r, q)
      then (var q: nat :| Partner(d, e, g, r, q); q) else 0
  }

  lemma PairsUp(d: Dsu, e: Dsu, g: Graph)
    requires d.Valid() && e.Valid() && d.Size() == e.Size() && Live(e, g) <= Live(d, g)
    requires forall r | r in Live(e, g) :: exists q: nat :: Partner(d, e, g, r, q)
    ensures 2 * |Live(e, g)| <= |Live(d, g)|
  {
    var f := PartnerMap(d, e, g);
    forall r | r in Live(e, g)
      ensures Partner(d, e, g, r, f(r)) && f(r) in Live(d, g) - Live(e, g)
    {
    }
    InjectionCard(Live(e, g), Live(d, g) - Live(e, g), f);
    assert |Live(d, g) - Live(e, g)| == |Live(d, g)| - |Live(e, g)|;
  }

  /** A round after which at most half as many sets have open edges as before. */
  ghost predicate LivesHalve(r: Round, g: Graph) {
    r.d.Valid() && r.s.d.Valid() && 2 * |Live(r.s.d, g)| <= |Live(r.d, g)|
  }

  /** Every set that still has open edges after the round was filed exactly, under the root it has kept. */
  ghost predicate SurvivorsExact(r: Round, g: Graph)
    requires r.d.Valid() && r.s.d.Valid()
  {
    forall root | root in Live(r.s.d, g) :: ClassExact(r, root)
  }

  /** If no sample failed and the surviving sets were filed exactly, the sets with open edges at least halve. */
  lemma HalvesWhere(p: Params, vs: seq<seq<Bucket>>, g: Graph, k: nat, r: Round)
    requires Finished(p, vs, k, r) && Flushed(p, g, vs) && SoundRound(p, g, r)
    requires !r.except && !r.s.failed && k < p.numSamples && r.f <= g && SurvivorsExact(r, g)
    ensures LivesHalve(r, g)
  {
    S.Quiescent(r.s, r.f);
    RoundInsideGraph(p, vs, g, k, r);
    LiveShrinks(r.d, r.s.d, g, r.s.forest);
    forall root | root in Live(r.s.d, g)
      ensures exists q: nat :: Partner(r.d, r.s.d, g, root, q)
    {
      var q := PartnerOf(p, vs, g, k, r, root);
    }
    PairsUp(r.d, r.s.d, g);
  }

  /**
   * With exact labels and no failed sample, the sets with open edges at least halve; and a
   * round that changed something had at least two of them.
   */
  lemma Halves(p: Params, vs: seq<seq<Bucket>>, g: Graph, k: nat, r: Round)
    requires Finished(p, vs, k, r) && Flushed(p, g, vs) && SoundRound(p, g, r) && Exact(r)
    requires !r.except && !r.s.failed && k < p.numSamples && r.f <= g
    ensures LivesHalve(r, g)
    ensures r.s.modified ==> |Live(r.d, g)| >= 2
  {
    S.Quiescent(r.s, r.f);
    RoundInsideGraph(p, vs, g, k, r);
    forall root | root in Live(r.s.d, g)
      ensures ClassExact(r, root)
    {
      GroupIsClass(r.mi, r.d, root);
    }
    HalvesWhere(p, vs, g, k, r);
    if r.s.modified {
      TwoLive(r.d, r.f, r.s.forest, g);
    }
  }

  lemma NewEdgeCrosses(d: Dsu, f: Graph, h: Graph, x: Edge)
    requires Spans(d, f) && Acyclic(h) && f <= h && x in h && x !in f && x.src < d.Size() && x.dst < d.Size()
    ensures !d.SameSet(x.src, x.dst)
  {
    if Connected(f, x.src, x.dst) {
      ConnMono(f, h - {x}, x.src, x.dst);
    }
  }

  lemma TwoLive(d: Dsu, f: Graph, h: Graph, g: Graph)
    requires Spans(d, f) && Acyclic(h) && f <= h <= g && h != f && Simple(g, d.Size())
    ensures |Live(d, g)| >= 2
  {
    var x :| x in h && x !in f;
    NewEdgeCrosses(d, f, h, x);
    CrossesMeansLive(d, g, x);
    SubsetCard({d.Root(x.src), d.Root(x.dst)}, Live(d, g));
  }

  // Rounds whose answers are known

  /** Every group's sample finds an edge or finds that there is none. */
  ghost predicate NoneFails(p: Params, vs: seq<seq<Bucket>>, k: nat, mi: seq<MergeInstr>)
    requires p.Valid()
  {
    forall a: nat | a < |mi| ::
      Answer(p, vs, k, Group(mi, mi[a].root)).GoodSample? || Answer(p, vs, k, Group(mi, mi[a].root)).ZeroSample?
  }

  /** x is what the sample of some group finds. */
  ghost predicate FoundBy(p: Params, vs: seq<seq<Bucket>>, k: nat, mi: seq<MergeInstr>, x: Edge)
    requires p.Valid()
  {
    exists a: nat :: a < |mi| && FindsEdge(Answer(p, vs, k, Group(mi, mi[a].root)), x)
  }

  predicate FindsEdge(o: Outcome, x: Edge) {
    o.GoodSample? && InvConcatPairing(o.idx) == x
  }

  lemma EntryKnown(p: Params, vs: seq<seq<Bucket>>, k: nat, mi: seq<MergeInstr>, e: Entry)
    requires p.Valid() && EntryRight(p, vs, k, mi, e) && NoneFails(p, vs, k, mi)
    ensures e.outcome.GoodSample? || e.outcome.ZeroSample?
    ensures e.outcome.GoodSample? ==> FoundBy(p, vs, k, mi, InvConcatPairing(e.outcome.idx))
  {
    var a: nat :| a < |mi| && mi[a].root == e.root;
    assert Answer(p, vs, k, Group(mi, mi[a].root)) == e.outcome;
  }

  /** Then no sample fails, none is missing, and the edges asked are those found. */
  lemma KnownRound(p: Params, vs: seq<seq<Bucket>>, k: nat, r: Round)
    requires Finished(p, vs, k, r) && NoneFails(p, vs, k, r.mi)
    ensures !r.except && !r.s.failed && forall x | x in r.s.asked :: FoundBy(p, vs, k, r.mi, x)
  {
    forall a: nat | a < |r.log|
      ensures r.log[a].outcome.GoodSample? || r.log[a].outcome.ZeroSample?
      ensures r.log[a].outcome.GoodSample? ==> FoundBy(p, vs, k, r.mi, InvConcatPairing(r.log[a].outcome.idx))
    {
      assert EntryRight(p, vs, k, r.mi, r.log[a]);
      EntryKnown(p, vs, k, r.mi, r.log[a]);
    }
    forall x | x in r.s.asked
      ensures FoundBy(p, vs, k, r.mi, x)
    {
      assert Caused(r.log, x);
    }
  }

  /** If every edge found lies inside a set, the round changes nothing. */
  lemma InnerRound(p: Params, vs: seq<seq<Bucket>>, k: nat, r: Round)
    requires Finished(p, vs, k, r) && NoneFails(p, vs, k, r.mi)
    requires forall x | FoundBy(p, vs, k, r.mi, x) :: x.src < r.d.Size() && x.dst < r.d.Size() && r.d.SameSet(x.src, x.dst)
    ensures !r.except && !r.s.modified && r.s.forest == r.f
  {
    KnownRound(p, vs, k, r);
    S.Quiescent(r.s, r.f);
    forall x | x in r.s.forest
      ensures x in r.f
    {
      if x !in r.f {
        FreshCrosses(r, x);
      }
    }
  }

  lemma FreshCrosses(r: Round, x: Edge)
    requires S.ForestOf(r.d, r.f) && S.ForestOf(r.s.d, r.s.forest) && r.d.Size() == r.s.d.Size() && r.f <= r.s.forest
    requires x in r.s.forest && x !in r.f && S.Fresh(r.s, x)
    ensures exists e :: e in r.s.asked && Norm(e) == x && (e.src < r.d.Size() && e.dst < r.d.Size() ==> !r.d.SameSet(e.src, e.dst))
  {
    var e :| e in r.s.asked && Norm(e) == x;
    NewEdgeCrosses(r.d, r.f, r.s.forest, x);
  }

  // A whole query

  ghost predicate Follows(r: Round, next: Round) {
    && !r.except && r.s.modified
    && next.f == r.s.forest && SameRoots(r.s.d, next.d)
  }

  /** The rounds of one query: from single vertices, each continuing where the last one stopped. */
  ghost predicate IsTrail(p: Params, vs: seq<seq<Bucket>>, prio: seq<nat>, trail: seq<Round>) {
    && trail != [] && trail[0].mi == Z.Identity(|vs|) && trail[0].d == Singletons(prio) && trail[0].f == {}
    && (forall i: nat {:trigger Finished(p, vs, i, trail[i])} | i < |trail| :: Finished(p, vs, i, trail[i]))
    && (forall i: nat, j: nat | i < |trail| && j < |trail| && j == i + 1 :: Follows(trail[i], trail[j]))
  }

  ghost predicate SoundTrail(p: Params, g: Graph, trail: seq<Round>)
    requires p.Valid() && Simple(g, NODE_LIMIT)
  {
    forall i: nat | i < |trail| :: SoundRound(p, g, trail[i])
  }

  ghost predicate ExactTrail(trail: seq<Round>) {
    forall i: nat | i < |trail| :: Exact(trail[i])
  }

  ghost predicate NoFailure(trail: seq<Round>) {
    forall i: nat | i < |trail| :: !trail[i].s.failed
  }

  lemma TrailPrefix(p: Params, vs: seq<seq<Bucket>>, prio: seq<nat>, trail: seq<Round>, i: nat)
    requires IsTrail(p, vs, prio, trail) && 0 < i <= |trail|
    ensures IsTrail(p, vs, prio, trail[..i])
  {
    forall a: nat | a < i
      ensures Finished(p, vs, a, trail[..i][a])
    {
      assert Finished(p, vs, a, trail[a]);
    }
    forall a: nat, b: nat | a < i && b < i && b == a + 1
      ensures Follows(trail[..i][a], trail[..i][b])
    {
      assert Follows(trail[a], trail[b]);
    }
  }

  /** The first round files every vertex under itself. */
  lemma FirstExact(p: Params, vs: seq<seq<Bucket>>, prio: seq<nat>, trail: seq<Round>)
    requires IsTrail(p, vs, prio, trail)
    ensures Exact(trail[0])
  {
    assert Finished(p, vs, 0, trail[0]);
    forall k: nat | k < |vs|
      ensures trail[0].mi[k].root == trail[0].d.Root(trail[0].mi[k].child)
    {
      SingletonRoot(prio, k);
    }
  }

  /** Whatever the labels and however it ends: a query on honest checksums only links edges of the graph. */
  lemma {:induction false} TrailInsideGraph(p: Params, vs: seq<seq<Bucket>>, g: Graph, prio: seq<nat>, trail: seq<Round>)
    requires IsTrail(p, vs, prio, trail) && Flushed(p, g, vs) && SoundTrail(p, g, trail)
    ensures trail[|trail| - 1].f <= g && trail[|trail| - 1].s.forest <= g
    decreases |trail|
  {
    var m := |trail| - 1;
    assert Finished(p, vs, m, trail[m]) && SoundRound(p, g, trail[m]);
    if m > 0 {
      TrailPrefix(p, vs, prio, trail, m);
      TrailInsideGraph(p, vs, g, prio, trail[..m]);
      assert Follows(trail[m - 1], trail[m]);
    }
    RoundInsideGraph(p, vs, g, m, trail[m]);
  }

  /** A query that reports two vertices together is right, whatever the labels were. */
  lemma TogetherMeansConnected(p: Params, vs: seq<seq<Bucket>>, g: Graph, prio: seq<nat>, trail: seq<Round>, x: nat, y: nat)
    requires IsTrail(p, vs, prio, trail) && Flushed(p, g, vs) && SoundTrail(p, g, trail)
    requires x < |vs| && y < |vs|
    ensures var d := trail[|trail| - 1].s.d;
      d.Valid() && d.Size() == |vs| && (d.SameSet(x, y) ==> Connected(g, x, y))
  {
    var r := trail[|trail| - 1];
    assert Finished(p, vs, |trail| - 1, r);
    S.Quiescent(r.s, r.f);
    TrailInsideGraph(p, vs, g, prio, trail);
    if r.s.d.SameSet(x, y) {
      ConnMono(r.s.forest, g, x, y);
    }
  }

  /** The main theorem: a query that ends normally has found the components of the graph. */
  lemma TrailComplete(p: Params, vs: seq<seq<Bucket>>, g: Graph, prio: seq<nat>, trail: seq<Round>)
    requires IsTrail(p, vs, prio, trail) && Flushed(p, g, vs) && SoundTrail(p, g, trail) && |vs| > 0
    requires var last := trail[|trail| - 1]; !last.except && !last.s.modified && Covered(last, g)
    ensures var last := trail[|trail| - 1]; Spans(last.s.d, g) && last.s.forest <= g && Acyclic(last.s.forest)
  {
    var m := |trail| - 1;
    assert Finished(p, vs, m, trail[m]) && SoundRound(p, g, trail[m]);
    TrailInsideGraph(p, vs, g, prio, trail);
    ThrowsIff(p, vs, m, trail[m]);
    UnmodifiedIsComplete(p, vs, g, m, trail[m]);
    S.Quiescent(trail[m].s, trail[m].f);
  }

  lemma SameRootsLive(d: Dsu, e: Dsu, g: Graph)
    requires SameRoots(d, e)
    ensures Live(d, g) == Live(e, g)
  {
    assert d.Roots() == e.Roots();
    forall r | r in d.Roots()
      ensures Class(d, r) == Class(e, r)
    {
    }
  }

  lemma LiveAtMost(d: Dsu, g: Graph)
    requires d.Valid()
    ensures |Live(d, g)| <= d.Size()
  {
    SubsetCard(Live(d, g), Range(0, d.Size()));
    RangeCard(0, d.Size());
  }

  lemma HalvesOnce(p: Params, vs: seq<seq<Bucket>>, g: Graph, prio: seq<nat>, trail: seq<Round>, m: nat)
    requires IsTrail(p, vs, prio, trail) && Flushed(p, g, vs) && SoundTrail(p, g, trail) && |vs| > 0
    requires ExactTrail(trail) && NoFailure(trail) && m + 1 < |trail| && trail[m].f <= g
    ensures trail[m].d.Valid() && trail[m + 1].d.Valid()
    ensures 2 * |Live(trail[m + 1].d, g)| <= |Live(trail[m].d, g)| && |Live(trail[m].d, g)| >= 2
  {
    assert Finished(p, vs, m, trail[m]) && SoundRound(p, g, trail[m]) && Exact(trail[m]) && !trail[m].s.failed;
    assert Follows(trail[m], trail[m + 1]);
    ThrowsIff(p, vs, m, trail[m]);
    Halves(p, vs, g, m, trail[m]);
    SameRootsLive(trail[m].s.d, trail[m + 1].d, g);
  }

  lemma StaysInside(p: Params, vs: seq<seq<Bucket>>, g: Graph, prio: seq<nat>, trail: seq<Round>, i: nat)
    requires IsTrail(p, vs, prio, trail) && Flushed(p, g, vs) && SoundTrail(p, g, trail) && i + 1 < |trail| && trail[i].f <= g
    ensures trail[i + 1].f <= g
  {
    assert Finished(p, vs, i, trail[i]) && SoundRound(p, g, trail[i]) && Follows(trail[i], trail[i + 1]);
    RoundInsideGraph(p, vs, g, i, trail[i]);
  }

  /** Before round i at most n / 2^i sets have open edges. */
  ghost predicate LiveFew(trail: seq<Round>, g: Graph, n: nat, i: nat)
    requires i < |trail|
  {
    trail[i].d.Valid() && trail[i].f <= g && |Live(trail[i].d, g)| * Pow2(i) <= n
  }

  lemma LiveStep(p: Params, vs: seq<seq<Bucket>>, g: Graph, prio: seq<nat>, trail: seq<Round>, i: nat)
    requires IsTrail(p, vs, prio, trail) && Flushed(p, g, vs) && SoundTrail(p, g, trail) && |vs| > 0
    requires ExactTrail(trail) && NoFailure(trail) && i + 1 < |trail| && LiveFew(trail, g, |vs|, i)
    ensures LiveFew(trail, g, |vs|, i + 1)
  {
    StaysInside(p, vs, g, prio, trail, i);
    HalvesOnce(p, vs, g, prio, trail, i);
    Doubling(|Live(trail[i + 1].d, g)|, |Live(trail[i].d, g)|, Pow2(i));
  }

  lemma LiveFirst(p: Params, vs: seq<seq<Bucket>>, g: Graph, prio: seq<nat>, trail: seq<Round>)
    requires IsTrail(p, vs, prio, trail)
    ensures LiveFew(trail, g, |vs|, 0)
  {
    assert Finished(p, vs, 0, trail[0]);
    LiveAtMost(trail[0].d, g);
    TimesFirst(|Live(trail[0].d, g)|);
  }

  lemma TimesFirst(a: nat)
    ensures a * Pow2(0) == a
  {
  }

  lemma LiveBound(p: Params, vs: seq<seq<Bucket>>, g: Graph, prio: seq<nat>, trail: seq<Round>, i: nat)
    requires IsTrail(p, vs, prio, trail) && Flushed(p, g, vs) && SoundTrail(p, g, trail) && |vs| > 0
    requires ExactTrail(trail) && NoFailure(trail) && i < |trail|
    ensures LiveFew(trail, g, |vs|, i)
  {
    LiveFirst(p, vs, g, prio, trail);
    for k := 0 to i
      invariant LiveFew(trail, g, |vs|, k)
    {
      LiveStep(p, vs, g, prio, trail, k);
    }
  }

  lemma Doubling(a: nat, b: nat, c: nat)
    requires 2 * a <= b
    ensures a * (2 * c) <= b * c
  {
  }

  /** If no sample fails, a query ends within floor(log2 n) + 1 rounds and never runs out of samples. */
  lemma NeverExhausted(p: Params, vs: seq<seq<Bucket>>, g: Graph, prio: seq<nat>, trail: seq<Round>)
    requires IsTrail(p, vs, prio, trail) && Flushed(p, g, vs) && SoundTrail(p, g, trail) && |vs| > 0
    requires ExactTrail(trail) && NoFailure(trail)
    ensures Pow2(|trail| - 1) <= |vs|
    ensures |vs| < Pow2(p.numSamples) ==> !trail[|trail| - 1].except
  {
    var m := |trail| - 1;
    assert Finished(p, vs, m, trail[m]);
    if m > 0 {
      LiveBound(p, vs, g, prio, trail, m - 1);
      HalvesOnce(p, vs, g, prio, trail, m - 1);
      Twice(|Live(trail[m - 1].d, g)|, Pow2(m - 1));
    }
    ThrowsIff(p, vs, m, trail[m]);
    if m >= p.numSamples {
      Pow2Mono(p.numSamples, m);
    }
  }

  /** A round that fails nowhere and changes something links at least one edge. */
  lemma ForestGrows(p: Params, vs: seq<seq<Bucket>>, prio: seq<nat>, trail: seq<Round>, i: nat)
    requires IsTrail(p, vs, prio, trail) && NoFailure(trail) && i + 1 < |trail|
    ensures |trail[i + 1].f| > |trail[i].f|
  {
    var r := trail[i];
    assert Finished(p, vs, i, r) && Follows(r, trail[i + 1]) && !r.s.failed;
    S.Quiescent(r.s, r.f);
    OneFewerEdge(r.f, r.s.forest);
  }

  lemma OneFewerEdge(f: Graph, h: Graph)
    requires f <= h && f != h
    ensures |f| < |h|
  {
    var x :| x in h && x !in f;
    SubsetCard(f, h - {x});
  }

  lemma ForestAtLeast(p: Params, vs: seq<seq<Bucket>>, prio: seq<nat>, trail: seq<Round>, i: nat)
    requires IsTrail(p, vs, prio, trail) && NoFailure(trail) && i < |trail|
    ensures |trail[i].f| >= i
  {
    var sizes := seq(|trail|, k requires 0 <= k < |trail| => |trail[k].f|);
    forall k: nat | k + 1 < |sizes|
      ensures sizes[k] < sizes[k + 1]
    {
      ForestGrows(p, vs, prio, trail, k);
    }
    Climbs(sizes, i);
  }

  lemma {:induction false} Climbs(s: seq<nat>, i: nat)
    requires i < |s| && forall k: nat | k + 1 < |s| :: s[k] < s[k + 1]
    ensures s[i] >= i
    decreases i
  {
    if i > 0 {
      Climbs(s, i - 1);
    }
  }

  /** A forest has fewer edges than there are vertices. */
  lemma ForestSmall(d: Dsu, f: Graph)
    requires S.ForestOf(d, f) && d.Size() > 0
    ensures |f| < d.Size()
  {
    assert d.Root(0) in d.Roots();
  }

  /**
   * Whatever the labels and the hashes: if no sample fails, a query has at most as many rounds
   * as vertices, and with that many samples it never runs out of them.
   */
  lemma RoundsBounded(p: Params, vs: seq<seq<Bucket>>, prio: seq<nat>, trail: seq<Round>)
    requires IsTrail(p, vs, prio, trail) && NoFailure(trail) && |vs| > 0
    ensures |trail| <= |vs|
    ensures |vs| <= p.numSamples ==> !trail[|trail| - 1].except
  {
    var m := |trail| - 1;
    assert Finished(p, vs, m, trail[m]);
    ForestAtLeast(p, vs, prio, trail, m);
    ForestSmall(trail[m].d, trail[m].f);
    ThrowsIff(p, vs, m, trail[m]);
  }

  lemma Twice(a: nat, c: nat)
    requires a >= 2
    ensures 2 * c <= a * c
  {
  }

  lemma TrailBegins(p: Params, vs: seq<seq<Bucket>>, prio: seq<nat>, r: Round)
    requires Finished(p, vs, 0, r) && r.mi == Z.Identity(|vs|) && r.d == Singletons(prio) && r.f == {}
    ensures IsTrail(p, vs, prio, [r])
  {
  }

  lemma TrailGrows(p: Params, vs: seq<seq<Bucket>>, prio: seq<nat>, trail: seq<Round>, r: Round)
    requires IsTrail(p, vs, prio, trail) && Finished(p, vs, |trail|, r) && Follows(trail[|trail| - 1], r)
    ensures IsTrail(p, vs, prio, trail + [r])
  {
    var next := trail + [r];
    assert next[0] == trail[0];
    forall i: nat | i < |next|
      ensures Finished(p, vs, i, next[i])
    {
      FinishedSnoc(p, vs, trail, r, i);
    }
    FollowsSnoc(trail, r);
  }

  lemma FollowsSnoc(trail: seq<Round>, r: Round)
    requires trail != [] && Follows(trail[|trail| - 1], r)
    requires forall i: nat, j: nat | i < |trail| && j < |trail| && j == i + 1 :: Follows(trail[i], trail[j])
    ensures var next := trail + [r];
      forall i: nat, j: nat | i < |next| && j < |next| && j == i + 1 :: Follows(next[i], next[j])
  {
    var next := trail + [r];
    forall i: nat, j: nat | i < |next| && j < |next| && j == i + 1
      ensures Follows(next[i], next[j])
    {
      if j < |trail| {
        assert Follows(trail[i], trail[j]);
      }
    }
  }

  lemma FinishedSnoc(p: Params, vs: seq<seq<Bucket>>, trail: seq<Round>, r: Round, i: nat)
    requires i <= |trail| && if i < |trail| then Finished(p, vs, i, trail[i]) else Finished(p, vs, i, r)
    ensures Finished(p, vs, i, (trail + [r])[i])
  {
  }
}
