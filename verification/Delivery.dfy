// From delivered half updates to sketches: once every half has been applied, each vertex
// sketch holds exactly the edges at its vertex (include/graph_sketch_driver.h, lines
// 150-200, src/cc_sketch_alg.cpp, apply_update_batch).

module Delivery {
  import opened Pairing
  import opened Graphs
  import opened Buckets
  import opened SketchSpec
  import opened Cuts
  import opened Flush
  import C = ConnectedComponentsAlg
  import E = EagerDsu

  predicate Fits(h: Half) {
    h.src < NODE_LIMIT && h.dst < NODE_LIMIT
  }

  /** The sketch indices that an odd number of the halves toggle at v. */
  ghost function OddAt(applied: multiset<Half>, v: nat): set<nat> {
    set h | h in applied && h.src == v && Fits(h) && applied[h] % 2 == 1 :: ConcatPairing(v, h.dst)
  }

  lemma OddIn(applied: multiset<Half>, h: Half)
    requires Fits(h)
    ensures ConcatPairing(h.src, h.dst) in OddAt(applied, h.src) <==> applied[h] % 2 == 1
  {
    if ConcatPairing(h.src, h.dst) in OddAt(applied, h.src) {
      var k :| k in applied && k.src == h.src && Fits(k) && applied[k] % 2 == 1 &&
               ConcatPairing(h.src, k.dst) == ConcatPairing(h.src, h.dst);
      PairingInjective(h.src, k.dst, h.src, h.dst);
      assert k == h;
    }
  }

  /** One more half toggles its own index at its own vertex and nothing else. */
  lemma HalfTracks(applied: multiset<Half>, h: Half, v: nat)
    requires Fits(h)
    ensures OddAt(applied + multiset{h}, v) ==
            if v == h.src then SymDiff(OddAt(applied, v), {ConcatPairing(h.src, h.dst)}) else OddAt(applied, v)
  {
    var more := applied + multiset{h};
    var a := OddAt(more, v);
    var b := if v == h.src then SymDiff(OddAt(applied, v), {ConcatPairing(h.src, h.dst)}) else OddAt(applied, v);
    forall x | x in a
      ensures x in b
    {
      var k :| k in more && k.src == v && Fits(k) && more[k] % 2 == 1 && ConcatPairing(v, k.dst) == x;
      OddIn(applied, k);
      OddIn(applied, h);
      PairingInjective(v, k.dst, v, h.dst);
      assert more[k] == applied[k] + if k == h then 1 else 0;
    }
    forall x | x in b
      ensures x in a
    {
      HalfTracksBack(applied, h, v, x);
    }
  }

  lemma HalfTracksBack(applied: multiset<Half>, h: Half, v: nat, x: nat)
    requires Fits(h)
    requires x in (if v == h.src then SymDiff(OddAt(applied, v), {ConcatPairing(h.src, h.dst)}) else OddAt(applied, v))
    ensures x in OddAt(applied + multiset{h}, v)
  {
    var more := applied + multiset{h};
    if v == h.src && x == ConcatPairing(h.src, h.dst) {
      OddIn(applied, h);
      OddIn(more, h);
    } else {
      var k :| k in applied && k.src == v && Fits(k) && applied[k] % 2 == 1 && ConcatPairing(v, k.dst) == x;
      assert k != h;
      assert more[k] == applied[k];
      OddIn(more, k);
    }
  }

  /** The halves a batch for one vertex stands for. */
  function BatchHalves(src: nat, dsts: seq<nat>): (b: seq<Half>)
    ensures |b| == |dsts| && forall k: nat | k < |b| :: b[k] == Half(src, dsts[k])
  {
    seq(|dsts|, k requires 0 <= k < |dsts| => Half(src, dsts[k]))
  }

  /** Applying a batch moves the sketch of its vertex as the odd halves move, and no other sketch. */
  lemma {:induction false} BatchTracks(applied: multiset<Half>, src: nat, dsts: seq<nat>, v: nat)
    requires src < NODE_LIMIT && forall k: nat | k < |dsts| :: dsts[k] < NODE_LIMIT
    ensures OddAt(applied + multiset(BatchHalves(src, dsts)), v) ==
            if v == src then SymDiff(OddAt(applied, v), Parity(C.BatchIds(src, dsts))) else OddAt(applied, v)
    decreases |dsts|
  {
    if dsts == [] {
      assert applied + multiset(BatchHalves(src, dsts)) == applied;
    } else {
      var m := |dsts| - 1;
      BatchTracks(applied, src, dsts[..m], v);
      HalfTracks(applied + multiset(BatchHalves(src, dsts[..m])), Half(src, dsts[m]), v);
      BatchSnoc(applied, src, dsts);
      SymDiffAssoc(OddAt(applied, v), Parity(C.BatchIds(src, dsts[..m])), {ConcatPairing(src, dsts[m])});
    }
  }

  lemma BatchSnoc(applied: multiset<Half>, src: nat, dsts: seq<nat>)
    requires src < NODE_LIMIT && (forall k: nat | k < |dsts| :: dsts[k] < NODE_LIMIT) && dsts != []
    ensures var m := |dsts| - 1;
      && applied + multiset(BatchHalves(src, dsts)) ==
         applied + multiset(BatchHalves(src, dsts[..m])) + multiset{Half(src, dsts[m])}
      && Parity(C.BatchIds(src, dsts)) ==
         SymDiff(Parity(C.BatchIds(src, dsts[..m])), {ConcatPairing(src, dsts[m])})
  {
    var m := |dsts| - 1;
    assert BatchHalves(src, dsts) == BatchHalves(src, dsts[..m]) + [Half(src, dsts[m])];
    assert C.BatchIds(src, dsts)[..m] == C.BatchIds(src, dsts[..m]);
  }

  lemma SymDiffAssoc(a: set<nat>, b: set<nat>, c: set<nat>)
    ensures SymDiff(SymDiff(a, b), c) == SymDiff(a, SymDiff(b, c))
  {
  }

  /** Each end of an edge has been handed out as often as the edge was toggled, up to pairs that cancel. */
  ghost predicate Doubled(halves: multiset<Half>, calls: multiset<Edge>, n: nat) {
    && (forall h | h in halves :: h.src < n && h.dst < n && h.src != h.dst)
    && (forall e | e in calls :: e.src < e.dst < n)
    && (forall h: Half | h.src != h.dst :: halves[h] % 2 == calls[Norm(Edge(h.src, h.dst))] % 2)
  }

  lemma OddAreIncident(applied: multiset<Half>, calls: multiset<Edge>, n: nat, v: nat)
    requires Doubled(applied, calls, n) && n <= NODE_LIMIT && v < n
    ensures Simple(E.NetOf(calls), n) && Simple(Incident(E.NetOf(calls), v), NODE_LIMIT)
    ensures OddAt(applied, v) == Ids(Incident(E.NetOf(calls), v))
  {
    var g := E.NetOf(calls);
    forall x | x in OddAt(applied, v)
      ensures x in Ids(Incident(g, v))
    {
      var h :| h in applied && h.src == v && Fits(h) && applied[h] % 2 == 1 && ConcatPairing(v, h.dst) == x;
      var e := Norm(Edge(v, h.dst));
      assert calls[e] % 2 == 1 && e in calls && e in g;
      PairingRoundTrip(v, h.dst);
      IdOf(Incident(g, v), e);
    }
    forall x | x in Ids(Incident(g, v))
      ensures x in OddAt(applied, v)
    {
      var e :| e in Incident(g, v) && ConcatPairing(e.src, e.dst) == x;
      var h := if e.src == v then Half(e.src, e.dst) else Half(e.dst, e.src);
      assert Norm(Edge(h.src, h.dst)) == e;
      PairingRoundTrip(e.src, e.dst);
      OddIn(applied, h);
    }
  }

  /**
   * When every half has been applied, the sketches are those of the net graph: the
   * hypothesis under which a query is correct.
   */
  lemma DeliveredMeansFlushed(p: Params, vs: seq<seq<Bucket>>, halves: seq<set<nat>>, applied: multiset<Half>, calls: multiset<Edge>)
    requires C.Sketched(p, vs, halves) && |vs| <= NODE_LIMIT && Doubled(applied, calls, |vs|)
    requires forall v: nat | v < |vs| :: halves[v] == OddAt(applied, v)
    ensures Flushed(p, E.NetOf(calls), vs)
  {
    forall v: nat | v < |vs|
      ensures Simple(E.NetOf(calls), |vs|) && Simple(Incident(E.NetOf(calls), v), NODE_LIMIT)
      ensures vs[v] == SketchOf(p, Ids(Incident(E.NetOf(calls), v)))
    {
      OddAreIncident(applied, calls, |vs|, v);
    }
  }
}
