// A query of any number of threads from two on that ends normally, on honest checksums and
// sketches that lag behind nothing, and has missed that two sets are connected: what racing
// labels can cost (src/cc_sketch_alg.cpp, boruvka_emulation).

module MissedComponent {
  import opened Counting
  import opened Pairing
  import opened Graphs
  import opened Buckets
  import opened DsuSpec
  import opened SketchSpec
  import opened SampleCount
  import opened Cuts
  import opened BoruvkaSpec
  import opened Boruvka
  import opened Rings
  import opened RingStart
  import opened RingLabels
  import opened RingSeats
  import opened RingQuery
  import S = Supernode

  /** The configured sketches of n vertices under the hashes of the ring. */
  function Sketching(c: Ring, num: nat, den: nat, l0: bool): (p: Params)
    requires c.Valid() && c.n >= 8 && den > 0
    ensures Configured(p, c.n, num, den) && p.l0 == l0 && p.bkts > 5 && p.numSamples >= 18
    ensures p == RingParams(c, p.numSamples, p.bkts, p.l0)
  {
    EnoughRows(c.n);
    RingParams(c, CcSamples(c.n, num, den, l0), BktPerCol(VectorLength(c.n)), l0)
  }

  /** The vertices at both ends of a side that the second round finds are together already. */
  lemma FoundInside(c: Ring, d: Dsu, x: Edge)
    requires c.Valid() && |c.at| == 12 && Chains(c, d) && LaterFinds(c, x)
    ensures x.src < d.Size() && x.dst < d.Size() && d.SameSet(x.src, x.dst)
  {
    var i: nat :| i < |c.at| && x == c.Side(LaterSide(|c.at|, i));
    var k := LaterSide(|c.at|, i);
    assert d.Root(c.at[k]) == d.Root(c.at[c.Next(k)]);
  }

  lemma SecondChangesNothing(c: Ring, p: Params, vs: seq<seq<Bucket>>, b: Round)
    requires c.Valid() && |c.at| == 12 && Finished(p, vs, 1, b) && Chains(c, b.d) && NoneFails(p, vs, 1, b.mi)
    requires forall x | FoundBy(p, vs, 1, b.mi, x) :: LaterFinds(c, x)
    ensures !b.except && !b.s.modified && b.s.forest == b.f
  {
    forall x | FoundBy(p, vs, 1, b.mi, x)
      ensures x.src < b.d.Size() && x.dst < b.d.Size() && b.d.SameSet(x.src, x.dst)
    {
      FoundInside(c, b.d, x);
    }
    InnerRound(p, vs, 1, b);
  }

  /** The side between the tops of the chains joins two sets that the query leaves apart. */
  lemma TopsApart(c: Ring, p: Params, vs: seq<seq<Bucket>>, b: Round)
    requires c.Valid() && |c.at| == 12 && Finished(p, vs, 1, b) && Chains(c, b.d) && b.s.forest == b.f
    ensures !Spans(b.s.d, c.Net())
  {
    assert b.d.Root(c.at[5]) == c.at[5] && b.d.Root(c.at[6]) == c.at[6];
    S.Quiescent(b.s, b.f);
    SamePartition(b.d, b.s.d, b.f, c.at[5], c.at[6]);
    assert c.Side(5) in c.Net();
    ConnEdge(c.Net(), c.Side(5));
  }

  lemma MissedBy(c: Ring, threads: nat, p: Params, vs: seq<seq<Bucket>>, trail: seq<Round>)
    requires |c.at| == 12 && RingTrail(c, threads, p, vs, trail) && p.numSamples > 1
    ensures !trail[1].except && !trail[1].s.modified && !Spans(trail[1].s.d, c.Net())
  {
    var lab: seq<nat> :| SecondDone(c, threads, p, vs, trail[0], trail[1], lab);
    SecondKnown(c, threads, p, vs, trail[0], trail[1], lab);
    GrownChains(c, trail[0].s.d, trail[1].d);
    SecondChangesNothing(c, p, vs, trail[1]);
    TopsApart(c, p, vs, trail[1]);
  }

  /**
   * With twelve vertices or more, and two threads or more, at any sample factor and in both
   * builds: the threads can run a query, on honest checksums and sketches that lag behind
   * nothing, that ends normally without having found the components of the graph.
   */
  lemma QueryMisses(n: nat, threads: nat, num: nat, den: nat, l0: bool)
    returns (p: Params, vs: seq<seq<Bucket>>, g: Graph, prio: seq<nat>, trail: seq<Round>)
    requires 12 <= n < NODE_LIMIT && 2 <= threads <= n && den > 0
    ensures |vs| == n && p.l0 == l0 && Configured(p, n, num, den)
    ensures IsTrail(p, vs, prio, trail) && Grouped(threads, trail) && Ran(p, vs, threads, trail)
    ensures Flushed(p, g, vs) && SoundTrail(p, g, trail)
    ensures var last := trail[|trail| - 1]; !last.except && !last.s.modified && !Spans(last.s.d, g)
  {
    var c, owner := Seat12(n, threads);
    p := Sketching(c, num, den, l0);
    vs, g, prio := RingSketches(c, p), c.Net(), RingPrio(c);
    trail := RingRuns(c, threads, owner, p, vs);
    MissedBy(c, threads, p, vs, trail);
  }
}
