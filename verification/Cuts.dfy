// Merging the sketches of a set of vertices gives the sketch of its cut: the edges inside
// the set are counted from both ends and cancel (src/cc_sketch_alg.cpp, lines 127-133).

module Cuts {
  import opened Counting
  import opened Pairing
  import opened Graphs
  import opened Words
  import opened Buckets
  import opened SketchSpec
  import opened RoundSpec

  /** The sketch indices of a set of edges. */
  ghost function Ids(g: Graph): set<nat>
    requires Simple(g, NODE_LIMIT)
  {
    set e | e in g :: ConcatPairing(e.src, e.dst)
  }

  /** Every update of the graph has reached the sketches of both endpoints. */
  ghost predicate Flushed(p: Params, g: Graph, vs: seq<seq<Bucket>>) {
    && p.Valid() && Simple(g, |vs|) && |vs| <= NODE_LIMIT
    && forall v: nat | v < |vs| :: vs[v] == SketchOf(p, Ids(Incident(g, v)))
  }

  lemma IdOf(g: Graph, e: Edge)
    requires Simple(g, NODE_LIMIT) && e.src < e.dst < NODE_LIMIT
    ensures e in g <==> ConcatPairing(e.src, e.dst) in Ids(g)
  {
    if ConcatPairing(e.src, e.dst) in Ids(g) {
      var d :| d in g && ConcatPairing(d.src, d.dst) == ConcatPairing(e.src, e.dst);
      PairingInjective(d.src, d.dst, e.src, e.dst);
    }
  }

  /** Distinct edges have distinct indices, so differences of graphs are differences of index sets. */
  lemma IdsSymDiff(g: Graph, h: Graph)
    requires Simple(g, NODE_LIMIT) && Simple(h, NODE_LIMIT)
    ensures Simple(SymDiff(g, h), NODE_LIMIT)
    ensures Ids(SymDiff(g, h)) == SymDiff(Ids(g), Ids(h))
  {
    forall x | x in Ids(SymDiff(g, h))
      ensures x in SymDiff(Ids(g), Ids(h))
    {
      var e :| e in SymDiff(g, h) && ConcatPairing(e.src, e.dst) == x;
      IdOf(g, e);
      IdOf(h, e);
    }
    forall x | x in SymDiff(Ids(g), Ids(h))
      ensures x in Ids(SymDiff(g, h))
    {
      var e :| e in g + h && ConcatPairing(e.src, e.dst) == x;
      IdOf(g, e);
      IdOf(h, e);
      IdOf(SymDiff(g, h), e);
    }
  }

  /** Moving a vertex into a set flips exactly its own edges in the cut. */
  lemma CutGrows(g: Graph, n: nat, c: set<nat>, v: nat)
    requires Simple(g, n) && v !in c
    ensures Cut(g, c + {v}) == SymDiff(Incident(g, v), Cut(g, c))
  {
  }

  lemma CutSmall(g: Graph, n: nat, c: set<nat>, v: nat)
    requires Simple(g, n) && n <= NODE_LIMIT
    ensures Simple(Cut(g, c), NODE_LIMIT) && Simple(Incident(g, v), NODE_LIMIT)
  {
  }

  /** The XOR of the sketches of any set of vertices is the sketch of the edges leaving it. */
  lemma {:induction false} CutSketch(p: Params, g: Graph, vs: seq<seq<Bucket>>, c: set<nat>)
    requires Flushed(p, g, vs) && c <= Range(0, |vs|)
    ensures Simple(Cut(g, c), NODE_LIMIT)
    ensures Xored(p, vs, c) == SketchOf(p, Ids(Cut(g, c)))
    decreases c
  {
    CutSmall(g, |vs|, c, 0);
    if c == {} {
      assert Cut(g, c) == {};
      assert Ids(Cut(g, c)) == {};
    } else {
      var v :| v in c;
      var rest := c - {v};
      CutSketch(p, g, vs, rest);
      CutSmall(g, |vs|, rest, v);
      CutGrows(g, |vs|, rest, v);
      assert rest + {v} == c;
      IdsSymDiff(Incident(g, v), Cut(g, rest));
      CutSketchStep(p, vs, c, v, Ids(Incident(g, v)), Ids(Cut(g, rest)));
    }
  }

  lemma CutSketchStep(p: Params, vs: seq<seq<Bucket>>, c: set<nat>, v: nat, a: set<nat>, b: set<nat>)
    requires p.Valid() && v in c && v < |vs| && vs[v] == SketchOf(p, a) && Xored(p, vs, c - {v}) == SketchOf(p, b)
    ensures Xored(p, vs, c) == SketchOf(p, SymDiff(a, b))
  {
    forall i: nat | i < p.NumBuckets()
      ensures Xored(p, vs, c)[i] == SketchOf(p, SymDiff(a, b))[i]
    {
      SumRemove(c, Column(vs, i), v);
      SumSymDiff(a, b, Unit(p, i));
      assert Xored(p, vs, c - {v})[i] == Sum(c - {v}, Column(vs, i));
    }
  }

  /** The sketch of the cut of c does not deceive its reader. */
  ghost predicate SoundCut(p: Params, g: Graph, c: set<nat>)
    requires p.Valid() && Simple(g, NODE_LIMIT)
  {
    Sound(p, Ids(Cut(g, c)))
  }

  /**
   * Under the checksum hypothesis for its cut, sampling a merged component answers with an
   * edge that leaves it, or says rightly that there is none, or fails.
   */
  lemma CutSample(p: Params, g: Graph, vs: seq<seq<Bucket>>, c: set<nat>, round: nat)
    requires Flushed(p, g, vs) && c <= Range(0, |vs|) && SoundCut(p, g, c)
    ensures var o := Answer(p, vs, round, c);
      && (o.OutOfSamples? <==> round >= p.numSamples)
      && (o.GoodSample? ==> InvConcatPairing(o.idx) in Cut(g, c))
      && (round < p.numSamples ==> (o.ZeroSample? <==> Cut(g, c) == {}))
  {
    CutSketch(p, g, vs, c);
    var s := Ids(Cut(g, c));
    SampleSound(p, s, round);
    var o := Answer(p, vs, round, c);
    if o.GoodSample? {
      var e :| e in Cut(g, c) && ConcatPairing(e.src, e.dst) == o.idx;
      PairingRoundTrip(e.src, e.dst);
    }
    if Cut(g, c) != {} {
      var e :| e in Cut(g, c);
      IdOf(Cut(g, c), e);
    }
  }
}
