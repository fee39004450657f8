// A round without a failed sample in which the sets with open edges do not halve: the other
// cost of racing labels (src/cc_sketch_alg.cpp, boruvka_emulation).

module LostHalving {
  import opened Counting
  import opened Pairing
  import opened Graphs
  import opened Buckets
  import opened DsuSpec
  import opened SketchSpec
  import opened SampleCount
  import opened Cuts
  import opened BoruvkaSpec
  import opened Boruvka
  import opened Rings
  import opened RingStart
  import opened RingLabels
  import opened RingSeats
  import opened RingQuery
  import opened MissedComponent
  import S = Supernode

  /** Before the second round at most three sets have open edges. */
  lemma LiveBefore(c: Ring, d: Dsu)
    requires c.Valid() && |c.at| == 8 && Chains(c, d)
    ensures |Live(d, c.Net())| <= 3
  {
    forall r | r in Live(d, c.Net())
      ensures r in {c.at[5], c.at[6], c.at[7]}
    {
      LiveIsTop(c, d, r);
    }
    SubsetCard(Live(d, c.Net()), {c.at[5]} + {c.at[6]} + {c.at[7]});
  }

  lemma LiveIsTop(c: Ring, d: Dsu, r: nat)
    requires c.Valid() && |c.at| == 8 && Chains(c, d) && r in Live(d, c.Net())
    ensures r == c.at[5] || r == c.at[6] || r == c.at[7]
  {
    if OffRing(c, Class(d, r)) {
      OffCut(c, Class(d, r));
    } else {
      var i: nat :| i < |c.at| && c.at[i] in Class(d, r);
    }
  }

  /** In those sets the last two vertices of the ring are alone. */
  lemma Lonely(c: Ring, d: Dsu, v: nat, i: nat)
    requires c.Valid() && |c.at| == 8 && Chains(c, d) && v < c.n && (i == 6 || i == 7)
    ensures d.SameSet(v, c.at[i]) <==> v == c.at[i]
  {
    if v in c.at {
      var k: nat :| k < |c.at| && c.at[k] == v;
    } else {
      assert c.at[i] in c.at;
    }
  }

  predicate Single(c: Ring, v: nat)
    requires |c.at| == 8
  {
    v == c.at[6] || v == c.at[7]
  }

  /** No edge of the forest after the round leaves them. */
  lemma SinglesClosed(c: Ring, d: Dsu, f: Graph, x: Edge)
    requires c.Valid() && |c.at| == 8 && Chains(c, d) && Spans(d, f) && (x in f || LaterFinds(c, x))
    ensures Single(c, x.src) <==> Single(c, x.dst)
  {
    if x in f {
      ConnEdge(f, x);
      Lonely(c, d, x.src, 6);
      Lonely(c, d, x.dst, 6);
      Lonely(c, d, x.src, 7);
      Lonely(c, d, x.dst, 7);
    } else {
      var i: nat :| i < |c.at| && x == c.Side(LaterSide(|c.at|, i));
      FoundSides(c, LaterSide(|c.at|, i));
    }
  }

  lemma FoundSides(c: Ring, k: nat)
    requires c.Valid() && |c.at| == 8 && (k == 0 || k == 6)
    ensures var x := c.Side(k); Single(c, x.src) <==> Single(c, x.dst)
  {
  }

  lemma StillApart(c: Ring, d: Dsu, f: Graph, e: Dsu, h: Graph, asked: Graph)
    requires c.Valid() && |c.at| == 8 && Chains(c, d) && Spans(d, f) && Spans(e, h) && e.Size() == c.n
    requires forall x | x in h && x !in f :: exists a :: a in asked && Norm(a) == x
    requires forall x | x in asked :: LaterFinds(c, x)
    ensures !e.SameSet(c.at[5], c.at[6])
  {
    var out := iset v: nat | !Single(c, v);
    forall x | x in h
      ensures x.src in out <==> x.dst in out
    {
      if x in f {
        SinglesClosed(c, d, f, x);
      } else {
        var a :| a in asked && Norm(a) == x;
        SinglesClosed(c, d, f, a);
      }
    }
    assert Closed(h, out);
    assert c.at[5] in out && c.at[6] !in out;
  }

  /** After it two sets still have open edges. */
  lemma LiveAfter(c: Ring, d: Dsu)
    requires c.Valid() && |c.at| == 8 && d.Valid() && d.Size() == c.n && !d.SameSet(c.at[5], c.at[6])
    ensures |Live(d, c.Net())| >= 2
  {
    NetSimple(c);
    var x := c.Side(5);
    assert x in c.Net();
    CrossesMeansLive(d, c.Net(), x);
    SubsetCard({d.Root(x.src), d.Root(x.dst)}, Live(d, c.Net()));
  }

  lemma LostBy(c: Ring, threads: nat, p: Params, vs: seq<seq<Bucket>>, trail: seq<Round>)
    requires |c.at| == 8 && RingTrail(c, threads, p, vs, trail) && p.numSamples > 1
    ensures !trail[1].except && !trail[1].s.failed && !LivesHalve(trail[1], c.Net())
  {
    var lab: seq<nat> :| SecondDone(c, threads, p, vs, trail[0], trail[1], lab);
    SecondKnown(c, threads, p, vs, trail[0], trail[1], lab);
    KnownRound(p, vs, 1, trail[1]);
    GrownChains(c, trail[0].s.d, trail[1].d);
    LostRound(c, p, vs, trail[1]);
  }

  lemma LostRound(c: Ring, p: Params, vs: seq<seq<Bucket>>, b: Round)
    requires c.Valid() && |c.at| == 8 && Finished(p, vs, 1, b) && Chains(c, b.d) && forall x | x in b.s.asked :: LaterFinds(c, x)
    ensures !LivesHalve(b, c.Net())
  {
    S.Quiescent(b.s, b.f);
    LiveBefore(c, b.d);
    StillApart(c, b.d, b.f, b.s.d, b.s.forest, b.s.asked);
    LiveAfter(c, b.s.d);
  }

  /**
   * With eight vertices or more, and two threads or more, at any sample factor and in both
   * builds: a query with a round in which no sample fails, and which leaves more than half of
   * the sets with open edges.
   */
  lemma HalvingLost(n: nat, threads: nat, num: nat, den: nat, l0: bool)
    returns (p: Params, vs: seq<seq<Bucket>>, g: Graph, prio: seq<nat>, trail: seq<Round>)
    requires 8 <= n < NODE_LIMIT && 2 <= threads <= n && den > 0
    ensures |vs| == n && p.l0 == l0 && Configured(p, n, num, den)
    ensures IsTrail(p, vs, prio, trail) && Grouped(threads, trail) && Ran(p, vs, threads, trail)
    ensures Flushed(p, g, vs) && SoundTrail(p, g, trail)
    ensures |trail| == 2 && !trail[1].except && !trail[1].s.failed && !LivesHalve(trail[1], g)
  {
    var c, owner := Seat8(n, threads);
    p := Sketching(c, num, den, l0);
    vs, g, prio := RingSketches(c, p), c.Net(), RingPrio(c);
    trail := RingRuns(c, threads, owner, p, vs);
    LostBy(c, threads, p, vs, trail);
  }
}
