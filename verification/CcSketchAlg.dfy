// The algorithm object: ingestion, the eagerly kept answer, and the queries
// (src/cc_sketch_alg.cpp, include/cc_sketch_alg.h).

module ConnectedComponentsAlg {
  import opened Pairing
  import opened Graphs
  import opened Buckets
  import opened DsuSpec
  import opened SketchSpec
  import opened Cuts
  import A = DsuAlone
  import B = BoruvkaSpec
  import E = EagerDsu
  import S = Supernode
  import W = Words
  import Snap = Snapshot
  import F = DsuFindRace
  import K = Sketches
  import N = SampleCount
  import Q = Boruvka

  datatype Error = UpdateLocked | OutOfSamplesLeft

  datatype Result<T> = Ok(value: T) | Err(error: Error)

  /** The answer to a connectivity query: a label per vertex and the number of components. */
  datatype Components = Components(labels: seq<nat>, count: nat)

  /** The sketch indices of a batch of half edges at one vertex. */
  function BatchIds(src: nat, dsts: seq<nat>): (ids: seq<nat>)
    requires src < NODE_LIMIT && forall k: nat | k < |dsts| :: dsts[k] < NODE_LIMIT
    ensures |ids| == |dsts| && forall k: nat | k < |ids| :: ids[k] == ConcatPairing(src, dsts[k])
  {
    seq(|dsts|, k requires 0 <= k < |dsts| => ConcatPairing(src, dsts[k]))
  }

  lemma UpdatedAllStep(p: Params, a: seq<Bucket>, xs: seq<nat>, k: nat)
    requires p.Valid() && k < |xs|
    ensures UpdatedAll(p, a, xs[..k + 1]) == Updated(p, UpdatedAll(p, a, xs[..k]), xs[k])
  {
    assert xs[..k + 1][..k] == xs[..k];
  }

  /** Toggling an edge at both its ends keeps every sketch in step with the graph. */
  lemma IncidentToggles(g: Graph, e: Edge, v: nat)
    requires Simple(g, NODE_LIMIT) && e.src < e.dst < NODE_LIMIT
    ensures Simple(SymDiff(g, {e}), NODE_LIMIT) && Simple(Incident(g, v), NODE_LIMIT)
    ensures Simple(Incident(SymDiff(g, {e}), v), NODE_LIMIT)
    ensures Ids(Incident(SymDiff(g, {e}), v)) ==
            if v == e.src || v == e.dst then SymDiff(Ids(Incident(g, v)), {ConcatPairing(e.src, e.dst)})
            else Ids(Incident(g, v))
  {
    if v == e.src || v == e.dst {
      assert Incident(SymDiff(g, {e}), v) == SymDiff(Incident(g, v), {e});
      IdsSymDiff(Incident(g, v), {e});
      assert Ids({e}) == {ConcatPairing(e.src, e.dst)};
    } else {
      assert Incident(SymDiff(g, {e}), v) == Incident(g, v);
    }
  }

  /** A worker's delta sketch is zeroed and takes up one batch; what it held before does not matter. */
  method FillDelta(delta: K.Sketch, src: nat, dsts: seq<nat>)
    requires delta.Valid() && src < NODE_LIMIT && forall k: nat | k < |dsts| :: dsts[k] < NODE_LIMIT
    modifies delta, delta.buckets
    ensures delta.Valid() && delta.buckets[..] == SketchOf(delta.p, Parity(BatchIds(src, dsts)))
  {
    delta.ZeroContents();
    ghost var p, ids := delta.p, BatchIds(src, dsts);
    ZerosSketchNothing(p);
    for k := 0 to |dsts|
      invariant delta.Valid() && delta.buckets[..] == UpdatedAll(p, Zeros(p), ids[..k])
    {
      UpdatedAllStep(p, Zeros(p), ids, k);
      delta.Update(ConcatPairing(src, dsts[k]));
    }
    assert ids[..|dsts|] == ids;
    UpdatesSketchParity(p, ids);
  }

  function BucketsOf(sketches: seq<SketchVal>): (vs: seq<seq<Bucket>>)
    ensures |vs| == |sketches| && forall v: nat | v < |vs| :: vs[v] == sketches[v].bks
  {
    seq(|sketches|, v requires 0 <= v < |sketches| => sketches[v].bks)
  }

  /** The given buckets at the given sample indices. */
  function SketchesOf(vs: seq<seq<Bucket>>, idx: seq<nat>): (r: seq<SketchVal>)
    requires |vs| == |idx|
    ensures |r| == |vs| && BucketsOf(r) == vs && forall v: nat | v < |r| :: r[v] == SketchVal(vs[v], idx[v])
  {
    seq(|vs|, v requires 0 <= v < |vs| => SketchVal(vs[v], idx[v]))
  }

  /** reset_sample_state on every sketch. */
  function AllReset(sketches: seq<SketchVal>): (r: seq<SketchVal>)
    ensures BucketsOf(r) == BucketsOf(sketches) && AtStart(r)
  {
    SketchesOf(BucketsOf(sketches), seq(|sketches|, _ => 0))
  }

  predicate AtStart(sketches: seq<SketchVal>) {
    forall v: nat | v < |sketches| :: sketches[v].idx == 0
  }

  /** Each vertex sketch is the sketch of the indices it has ingested. */
  ghost predicate Sketched(p: Params, vs: seq<seq<Bucket>>, halves: seq<set<nat>>) {
    p.Valid() && |vs| == |halves| && forall v: nat | v < |vs| :: vs[v] == SketchOf(p, halves[v])
  }

  /** Applying an edge at both ends follows the toggle. */
  lemma BothEndsFollow(p: Params, g: Graph, e: Edge, vs: seq<seq<Bucket>>, vs': seq<seq<Bucket>>)
    requires Flushed(p, g, vs) && e.src < e.dst < |vs| == |vs'|
    requires vs' == vs[e.src := Updated(p, vs[e.src], ConcatPairing(e.src, e.dst))]
                      [e.dst := Updated(p, vs[e.dst], ConcatPairing(e.src, e.dst))]
    ensures Flushed(p, SymDiff(g, {e}), vs')
  {
    var id := ConcatPairing(e.src, e.dst);
    forall v: nat | v < |vs'|
      ensures Simple(Incident(SymDiff(g, {e}), v), NODE_LIMIT) && vs'[v] == SketchOf(p, Ids(Incident(SymDiff(g, {e}), v)))
    {
      IncidentToggles(g, e, v);
      UpdateToggles(p, Ids(Incident(g, v)), id);
    }
  }

  /** The same with the ends in either order. */
  lemma UpdateFollows(p: Params, g: Graph, e: Edge, vs: seq<seq<Bucket>>, vs': seq<seq<Bucket>>)
    requires Flushed(p, g, vs) && e.src < |vs| && e.dst < |vs| && e.src != e.dst && |vs'| == |vs|
    requires var id := ConcatPairing(e.src, e.dst);
      vs' == vs[e.src := Updated(p, vs[e.src], id)][e.dst := Updated(p, vs[e.dst], id)]
    ensures Flushed(p, SymDiff(g, {Norm(e)}), vs')
  {
    PairingRoundTrip(e.src, e.dst);
    BothEndsFollow(p, g, Norm(e), vs, vs');
  }

  /** A toggle by one caller keeps the forest, and the whole invariant where it held. */
  lemma ToggleKeeps(was: E.Eager, d: Dsu, e: Edge, merged: bool)
    requires S.ForestOf(was.d, was.forest) && was.valid && was.ths == [] && was.linked == was.forest
    requires e.src < e.dst < was.d.Size() && merged == !was.d.SameSet(e.src, e.dst)
    requires merged ==> Joined(was.d, d, e.src, e.dst) && Evolves(was.d, d) && |d.Roots()| == |was.d.Roots()| - 1
    requires !merged ==> SameRoots(was.d, d)
    ensures var r := E.Toggle(was, d, e, merged);
      S.ForestOf(r.d, r.forest) && r.linked == r.forest && (E.EagerInv(was) ==> E.EagerInv(r))
  {
    if merged {
      S.LinkForest(was.d, d, was.forest, e);
      if E.EagerInv(was) {
        E.TogglesIn(was, d, e);
      }
    } else {
      S.SameRootsForest(was.d, d, was.forest);
      if E.EagerInv(was) {
        E.TogglesInside(was, d, e);
      }
    }
  }

  /** What one caller's pre_insert leaves; a self loop toggles nothing. */
  function Touched(was: E.Eager, d: Dsu, e: Edge, merged: bool): E.Eager {
    if e.src == e.dst then was.(d := d) else E.Toggle(was, d, e, merged)
  }

  /** The graph after a toggle of e, which may be a self loop. */
  function Toggled(g: Graph, e: Edge): Graph {
    if e.src == e.dst then g else SymDiff(g, {Norm(e)})
  }

  lemma NoLoops(f: Graph, e: Edge)
    requires Acyclic(f) && e.src == e.dst
    ensures e !in f
  {
  }

  lemma TouchKeeps(was: E.Eager, d: Dsu, e: Edge, merged: bool)
    requires S.ForestOf(was.d, was.forest) && was.valid && was.ths == [] && was.linked == was.forest
    requires e.src <= e.dst < was.d.Size() && merged == !was.d.SameSet(e.src, e.dst)
    requires merged ==> Joined(was.d, d, e.src, e.dst) && Evolves(was.d, d) && |d.Roots()| == |was.d.Roots()| - 1
    requires !merged ==> SameRoots(was.d, d)
    ensures var r := Touched(was, d, e, merged);
      S.ForestOf(r.d, r.forest) && r.linked == r.forest && (E.EagerInv(was) ==> E.EagerInv(r))
    ensures e.src == e.dst ==> e !in was.forest
  {
    if e.src < e.dst {
      ToggleKeeps(was, d, e, merged);
    } else {
      NoLoops(was.forest, e);
      S.SameRootsForest(was.d, d, was.forest);
      if E.EagerInv(was) {
        E.HalvedBetween(was, d);
      }
    }
  }

  lemma NetOfSet(g: Graph)
    ensures E.NetOf(multiset(g)) == g
  {
  }

  /** Labels that show the sets of a union-find spanning g answer every question about g. */
  lemma AnswerIsComponents(d: Dsu, g: Graph, c: Components)
    requires Snap.Faithful(d, c.labels, c.count) && Spans(d, g)
    ensures forall x: nat, y: nat | x < d.Size() && y < d.Size() :: c.labels[x] == c.labels[y] <==> Connected(g, x, y)
    ensures c.count == |Leaders(g, d.Size())|
  {
    forall x: nat, y: nat | x < d.Size() && y < d.Size()
      ensures c.labels[x] == c.labels[y] <==> Connected(g, x, y)
    {
      assert d.SameSet(x, y) <==> Connected(g, x, y);
    }
    RootsCountComponents(d, g);
  }

  /** A good query leaves the state in which the eager upkeep may resume. */
  lemma AnswerTrusted(p: Params, vs: seq<seq<Bucket>>, g: Graph, prio: seq<nat>, trail: seq<B.Round>)
    requires B.IsTrail(p, vs, prio, trail) && Flushed(p, g, vs) && B.SoundTrail(p, g, trail) && |vs| > 0
    requires var last := trail[|trail| - 1]; !last.except && !last.s.modified && B.Covered(last, g)
    ensures var last := trail[|trail| - 1]; E.EagerInv(E.Begin(last.s.d, last.s.forest, g, 0))
  {
    var last := trail[|trail| - 1];
    B.TrailComplete(p, vs, g, prio, trail);
    assert B.Finished(p, vs, |trail| - 1, last);
    S.Quiescent(last.s, last.f);
    E.BeginInv(last.s.d, last.s.forest, g, 0);
  }

  lemma SameRootsSelf(d: Dsu)
    requires d.Valid()
    ensures SameRoots(d, d)
  {
  }

  lemma SnappedSame(d: Dsu, e: Dsu, labels: seq<nat>, count: nat)
    requires SameRoots(d, e)
    ensures Snap.Snapped(d, labels, count) ==> Snap.Snapped(e, labels, count)
    ensures Snap.Faithful(d, labels, count) ==> Snap.Faithful(e, labels, count)
  {
    assert d.Roots() == e.Roots();
    if Snap.Snapped(d, labels, count) {
      forall i: nat | i < e.Size()
        ensures Snap.LabelOk(e, labels, i)
      {
        assert Snap.LabelOk(d, labels, i);
      }
    }
  }

  /** The cached answer and a fresh query agree on every pair of vertices, and on the size of the forest. */
  lemma CacheEqualsFreshQuery(s: E.Eager, p: Params, vs: seq<seq<Bucket>>, prio: seq<nat>, trail: seq<B.Round>, x: nat, y: nat)
    requires E.EagerInv(s) && s.valid && (forall t: nat | t < |s.ths| :: s.ths[t].Outside?) && s.d.Size() == |vs|
    requires B.IsTrail(p, vs, prio, trail) && Flushed(p, E.Net(s), vs) && B.SoundTrail(p, E.Net(s), trail)
    requires var last := trail[|trail| - 1]; !last.except && !last.s.modified && B.Covered(last, E.Net(s))
    requires x < |vs| && y < |vs|
    ensures var last := trail[|trail| - 1];
      && last.s.d.Valid() && last.s.d.Size() == |vs|
      && (s.d.SameSet(x, y) <==> last.s.d.SameSet(x, y)) && |s.forest| == |last.s.forest|
  {
    var last := trail[|trail| - 1];
    assert B.Finished(p, vs, |trail| - 1, last);
    E.CachedAnswer(s);
    B.TrailComplete(p, vs, E.Net(s), prio, trail);
    S.Quiescent(last.s, last.f);
    B.SamePartition(s.d, last.s.d, E.Net(s), x, y);
    RootsCountComponents(s.d, E.Net(s));
    RootsCountComponents(last.s.d, E.Net(s));
  }

  /**
   * With the configured number of samples, at a factor of at least one, a query on honest
   * checksums and exact labels in which no sample fails never throws; it needs at most
   * floor(log2 n) + 1 rounds.
   */
  lemma SamplesSuffice(p: Params, vs: seq<seq<Bucket>>, g: Graph, prio: seq<nat>, trail: seq<B.Round>, num: nat, den: nat)
    requires |vs| > 0 && 0 < den <= num && p.numSamples == N.CcSamples(|vs|, num, den, p.l0)
    requires B.IsTrail(p, vs, prio, trail) && Flushed(p, g, vs) && B.SoundTrail(p, g, trail)
    requires B.ExactTrail(trail) && B.NoFailure(trail)
    ensures |trail| <= p.numSamples && W.Pow2(|trail| - 1) <= |vs|
  {
    N.SamplesCoverLog(|vs|, num, den, p.l0);
    B.NeverExhausted(p, vs, g, prio, trail);
    assert B.Finished(p, vs, |trail| - 1, trail[|trail| - 1]);
    B.ThrowsIff(p, vs, |trail| - 1, trail[|trail| - 1]);
  }

  /**
   * Whatever the labels: up to eighteen vertices, at any factor, a query in which no sample
   * fails never throws.
   */
  lemma EighteenSuffice(p: Params, vs: seq<seq<Bucket>>, prio: seq<nat>, trail: seq<B.Round>, num: nat, den: nat)
    requires 0 < |vs| <= 18 && den > 0 && p.numSamples == N.CcSamples(|vs|, num, den, p.l0)
    requires B.IsTrail(p, vs, prio, trail) && B.NoFailure(trail)
    ensures |trail| <= |vs| && !trail[|trail| - 1].except
  {
    B.RoundsBounded(p, vs, prio, trail);
  }

  /** The checksum hypothesis for everything a query sampled, on sketches that lag behind nothing. */
  ghost predicate Honest(p: Params, vs: seq<seq<Bucket>>, g: Graph, trail: seq<B.Round>) {
    Flushed(p, g, vs) && Simple(g, NODE_LIMIT) && B.SoundTrail(p, g, trail)
  }

  /** The hypotheses of the main theorem, for a query that ended normally. */
  ghost predicate Trustworthy(p: Params, vs: seq<seq<Bucket>>, g: Graph, trail: seq<B.Round>) {
    Honest(p, vs, g, trail) && trail != [] && B.Covered(trail[|trail| - 1], g)
  }

  class CCSketchAlg {
    const p: Params
    const n: nat
    const threads: nat
    const prio: seq<nat>

    var sketches: seq<SketchVal>
    var dsu: Dsu
    var forest: Graph
    var dsuValid: bool
    var sharedDsuValid: bool
    var updateLocked: bool
    var lastQueryRounds: nat

    /** The indices each vertex sketch has ingested an odd number of times. */
    ghost var halves: seq<set<nat>>
    /** Every toggle pre_insert has seen since the last query, on top of the graph at that time. */
    ghost var calls: multiset<Edge>
    /** Every query so far that ended normally met the hypotheses of TrailComplete. */
    ghost var trusted: bool

    /** The graph that the toggles seen so far add up to. */
    ghost function Net(): Graph
      reads this`calls
    {
      E.NetOf(calls)
    }

    ghost function EagerView(): E.Eager
      reads this
    {
      E.Eager(dsu, forest, dsuValid, [], forest, calls)
    }

    function Contents(): (vs: seq<seq<Bucket>>)
      reads this`sketches
      ensures |vs| == |sketches| && forall v: nat | v < |vs| :: vs[v] == sketches[v].bks
    {
      BucketsOf(sketches)
    }

    /** Holds at all times, during a query as well. */
    ghost predicate Sane()
      reads this
    {
      && p.Valid() && 1 <= threads <= n < NODE_LIMIT && |prio| == n
      && |sketches| == |halves| == n && Sketched(p, Contents(), halves)
      && S.ForestOf(dsu, forest) && dsu.prio == prio
      && (forall e | e in calls :: e.src < e.dst < n)
    }

    /** Holds between the calls. */
    ghost predicate Valid()
      reads this
    {
      && Sane() && AtStart(sketches)
      && dsuValid == sharedDsuValid
      && (dsuValid && trusted ==> E.EagerInv(EagerView()))
    }

    /** Every toggle has reached both its sketches. */
    ghost predicate AllApplied()
      reads this`calls, this`sketches
    {
      Flushed(p, Net(), Contents())
    }

    lemma NetSimple()
      requires Sane()
      ensures Simple(Net(), n) && Simple(Net(), NODE_LIMIT)
    {
    }

    constructor (p: Params, threads: nat, prio: seq<nat>)
      requires p.Valid() && 1 <= threads <= |prio| < NODE_LIMIT
      ensures Valid() && AllApplied() && Net() == {} && trusted && dsuValid && !updateLocked && lastQueryRounds == 0
      ensures dsu == Singletons(prio) && forest == {} && forall v: nat | v < |prio| :: halves[v] == {}
      ensures this.p == p && this.n == |prio| && this.threads == threads && this.prio == prio
    {
      this.p, this.n, this.threads, this.prio := p, |prio|, threads, prio;
      sketches := seq(|prio|, _ => SketchVal(Zeros(p), 0));
      dsu := Singletons(prio);
      forest := {};
      dsuValid, sharedDsuValid, updateLocked, lastQueryRounds := true, true, false, 0;
      halves := seq(|prio|, _ => {});
      calls := multiset{};
      trusted := true;
      new;
      SingletonsSpanned(prio);
      ZerosSketchNothing(p);
      assert E.Fresh(dsu, {}, {});
      E.BeginInv(dsu, {}, {}, 0);
      assert E.Begin(dsu, {}, {}, 0) == EagerView();
      assert Net() == {};
      forall v: nat | v < n
        ensures Contents()[v] == SketchOf(p, Ids(Incident({}, v)))
      {
        assert Incident({}, v) == {};
        assert Ids({}) == {};
      }
    }

    // Ingestion

    /** The guarded part of pre_insert: merge, then insert the edge or look it up. */
    method InsertEagerly(edge: Edge, spurious: nat)
      requires S.ForestOf(dsu, forest) && dsuValid && sharedDsuValid && edge.src <= edge.dst < dsu.Size()
      modifies this`dsu, this`forest, this`dsuValid, this`sharedDsuValid, this`calls
      ensures EagerView() == Touched(old(EagerView()), dsu, edge, !old(dsu.SameSet(edge.src, edge.dst)))
      ensures edge.src == edge.dst ==> edge !in old(forest)
      ensures S.ForestOf(dsu, forest) && dsu.prio == old(dsu.prio) && dsuValid == sharedDsuValid
      ensures old(E.EagerInv(EagerView())) ==> E.EagerInv(EagerView())
      ensures if old(dsu.SameSet(edge.src, edge.dst)) then SameRoots(old(dsu), dsu)
              else Joined(old(dsu), dsu, edge.src, edge.dst) && Evolves(old(dsu), dsu)
    {
      ghost var was := EagerView();
      if edge.src != edge.dst {
        calls := calls + multiset{edge};
      }
      var d, merged, _, _ := A.Merge(dsu, edge.src, edge.dst, spurious);
      TouchKeeps(was, d, edge, merged);
      if merged {
        forest := forest + {edge};
      } else if edge in forest {
        dsuValid := false;
        sharedDsuValid := false;
      }
      dsu := d;
      assert EagerView() == Touched(was, d, edge, merged);
    }

    /**
     * What pre_insert does to the answer: nothing unless it is valid. An edge between two sets
     * joins them and extends the forest; another one only ends the validity, if it is in the forest,
     * which a self loop never is.
     */
    twostate predicate Inserted(x: Edge)
      requires old(Sane()) && x.src <= x.dst < n
      reads this
    {
      if !old(dsuValid) then !dsuValid && forest == old(forest) && dsu == old(dsu)
      else if old(dsu.SameSet(x.src, x.dst)) then
        forest == old(forest) && SameRoots(old(dsu), dsu) && (dsuValid <==> x !in old(forest))
      else dsuValid && forest == old(forest) + {x} && Joined(old(dsu), dsu, x.src, x.dst) && Evolves(old(dsu), dsu)
    }

    /** pre_insert when no other thread is in it. */
    method PreInsert(e: Edge, spurious: nat)
      requires Valid() && e.src < n && e.dst < n
      modifies this`dsu, this`forest, this`dsuValid, this`sharedDsuValid, this`calls
      ensures Valid() && Net() == Toggled(old(Net()), e)
      ensures Inserted(Norm(e)) && (e.src == e.dst ==> dsuValid == old(dsuValid))
    {
      E.NetToggles(calls, Norm(e));
      if dsuValid {
        InsertEagerly(Norm(e), spurious);
      } else if e.src != e.dst {
        calls := calls + multiset{Norm(e)};
      }
    }

    /** A batch of half edges, or the exception while a query runs or after one has failed. */
    method ApplyUpdateBatch(src: nat, dsts: seq<nat>) returns (r: Result<()>)
      requires Valid() && src < n && forall k: nat | k < |dsts| :: dsts[k] < NODE_LIMIT
      modifies this`sketches, this`halves
      ensures Valid()
      ensures updateLocked ==> r == Err(UpdateLocked) && sketches == old(sketches) && halves == old(halves)
      ensures !updateLocked ==>
                r == Ok(()) && halves == old(halves)[src := SymDiff(old(halves[src]), Parity(BatchIds(src, dsts)))]
    {
      if updateLocked {
        return Err(UpdateLocked);
      }
      var delta := new K.Sketch(p);
      FillDelta(delta, src, dsts);
      ghost var ids := BatchIds(src, dsts);
      MergeIsSymDiff(p, halves[src], Parity(ids));
      sketches := sketches[src := SketchVal(Merged(sketches[src].bks, delta.buckets[..]), sketches[src].idx)];
      halves := halves[src := SymDiff(halves[src], Parity(ids))];
      return Ok(());
    }

    /**
     * A batch that arrives already sketched; neither the lock nor the buckets are looked at.
     * Only if they are the sketch of some indices ids does the vertex keep a sketch.
     */
    method ApplyRawBucketsUpdate(src: nat, raw: seq<Bucket>, ghost ids: set<nat>)
      requires Valid() && src < n && |raw| == p.NumBuckets()
      modifies this`sketches, this`halves
      ensures Contents() == old(Contents())[src := Merged(old(Contents()[src]), raw)]
      ensures raw == SketchOf(p, ids) ==> Valid() && halves == old(halves)[src := SymDiff(old(halves[src]), ids)]
      ensures raw != SketchOf(p, ids) ==> halves == old(halves)
      ensures AtStart(sketches)
    {
      MergeIsSymDiff(p, halves[src], ids);
      sketches := sketches[src := SketchVal(Merged(sketches[src].bks, raw), sketches[src].idx)];
      if raw == SketchOf(p, ids) {
        halves := halves[src := SymDiff(halves[src], ids)];
      }
    }

    /** One half of an update, straight into a vertex sketch. */
    method ApplyHalf(v: nat, id: nat)
      requires Valid() && v < n
      modifies this`sketches, this`halves
      ensures Valid() && halves == old(halves)[v := SymDiff(old(halves[v]), {id})]
      ensures Contents() == old(Contents())[v := Updated(p, old(Contents()[v]), id)]
    {
      UpdateToggles(p, halves[v], id);
      sketches := sketches[v := SketchVal(Updated(p, sketches[v].bks, id), sketches[v].idx)];
      halves := halves[v := SymDiff(halves[v], {id})];
    }

    /** The direct path: the toggle reaches the eager answer and both sketches at once. */
    method Update(e: Edge, spurious: nat)
      requires Valid() && e.src < n && e.dst < n
      modifies this`dsu, this`forest, this`dsuValid, this`sharedDsuValid, this`calls, this`sketches, this`halves
      ensures Valid() && Net() == Toggled(old(Net()), e)
      ensures Inserted(Norm(e)) && (e.src == e.dst ==> dsuValid == old(dsuValid))
      ensures e.src == e.dst ==> Contents() == old(Contents()) && halves == old(halves)
      ensures e.src != e.dst ==>
        var id := ConcatPairing(e.src, e.dst);
        && Contents() == old(Contents())[e.src := Updated(p, old(Contents()[e.src]), id)]
                                        [e.dst := Updated(p, old(Contents()[e.dst]), id)]
        && halves == old(halves)[e.src := SymDiff(old(halves[e.src]), {id})][e.dst := SymDiff(old(halves[e.dst]), {id})]
      ensures old(AllApplied()) ==> AllApplied()
    {
      ghost var vs := Contents();
      PreInsert(e, spurious);
      var id := ConcatPairing(e.src, e.dst);
      ApplyHalf(e.src, id);
      ApplyHalf(e.dst, id);
      if e.src == e.dst {
        TwiceIsNothing(e.src, id, vs, old(halves));
      } else if old(AllApplied()) {
        UpdateFollows(p, old(Net()), e, vs, Contents());
      }
    }

    /** Two equal halves at one vertex cancel. */
    lemma TwiceIsNothing(v: nat, id: nat, vs: seq<seq<Bucket>>, hs: seq<set<nat>>)
      requires Sane() && v < n && Sketched(p, vs, hs) && |hs| == n
      requires halves == hs[v := SymDiff(SymDiff(hs[v], {id}), {id})]
      ensures halves == hs && Contents() == vs
    {
      assert SymDiff(SymDiff(hs[v], {id}), {id}) == hs[v];
      assert halves == hs;
      assert forall u: nat | u < n :: Contents()[u] == vs[u];
    }

    // Queries

    /**
     * boruvka_emulation. A normal end validates the cached answer and releases the lock; an
     * exception leaves the flags as they were and the lock in place.
     */
    method BoruvkaEmulation(spurious: nat) returns (ok: bool, ghost trail: seq<B.Round>)
      requires Sane() && AtStart(sketches)
      modifies this`dsu, this`forest, this`sketches, this`dsuValid, this`sharedDsuValid, this`updateLocked, this`lastQueryRounds
      ensures Sane() && Contents() == old(Contents())
      ensures Q.WholeQuery(p, Contents(), prio, threads, trail, ok)
      ensures dsu == trail[|trail| - 1].s.d && forest == trail[|trail| - 1].s.forest && updateLocked == !ok
      ensures ok ==> dsuValid && sharedDsuValid && lastQueryRounds == |trail| - 1
      ensures !ok ==> dsuValid == old(dsuValid) && sharedDsuValid == old(sharedDsuValid)
      ensures !ok ==> lastQueryRounds == old(lastQueryRounds)
      ensures forall v: nat | v < n :: sketches[v].idx == if p.numSamples == 0 then 0 else 1
    {
      updateLocked := true;
      var done, d, f, idx, rounds, t := Q.Emulate(p, Contents(), prio, threads, seq(n, _ => 0), spurious);
      Store(done, d, f, idx, rounds);
      return done, t;
    }

    /** What a query leaves in the object. */
    method Store(done: bool, d: Dsu, f: Graph, idx: seq<nat>, rounds: nat)
      requires Sane() && updateLocked && |idx| == n && S.ForestOf(d, f) && d.prio == prio
      modifies this`dsu, this`forest, this`sketches, this`dsuValid, this`sharedDsuValid, this`updateLocked, this`lastQueryRounds
      ensures Sane() && Contents() == old(Contents()) && dsu == d && forest == f
      ensures forall v: nat | v < n :: sketches[v].idx == idx[v]
      ensures done ==> dsuValid && sharedDsuValid && !updateLocked && lastQueryRounds == rounds
      ensures !done ==> dsuValid == old(dsuValid) && sharedDsuValid == old(sharedDsuValid) && updateLocked
      ensures !done ==> lastQueryRounds == old(lastQueryRounds)
    {
      dsu, forest := d, f;
      sketches := SketchesOf(Contents(), idx);
      if done {
        lastQueryRounds := rounds;
        dsuValid := true;
        sharedDsuValid := true;
        updateLocked := false;
      }
    }

    /** Between queries every sketch starts from its first sample again. */
    method ResetSamples()
      requires Sane()
      modifies this`sketches
      ensures Sane() && Contents() == old(Contents()) && AtStart(sketches)
    {
      sketches := AllReset(sketches);
    }

    /** The bookkeeping of the proof: from here on toggles are counted on top of the graph g. */
    ghost method Rebase(g: Graph, good: bool)
      requires Sane() && AtStart(sketches) && dsuValid && sharedDsuValid && Net() == g && Simple(g, n)
      requires good ==> E.EagerInv(E.Begin(dsu, forest, g, 0))
      modifies this`calls, this`trusted
      ensures Valid() && Net() == g && trusted == good
    {
      calls := multiset(g);
      trusted := good;
      NetOfSet(g);
      assert E.Begin(dsu, forest, g, 0) == EagerView();
    }

    /**
     * What a query of these rounds leaves, up to path halving: its last partition and forest. If it
     * succeeds the answer is valid, the lock open, and the answer is trusted exactly when the
     * checksums were honest, the sketches lagged behind nothing, and no open set of the last round
     * was mislabelled together with a neighbour. If not, the flags are as before, behind the lock.
     */
    twostate predicate Queried(ok: bool, trail: seq<B.Round>)
      reads this
    {
      Q.WholeQuery(p, Contents(), prio, threads, trail, ok) && SameRoots(trail[|trail| - 1].s.d, dsu) && Flagged(ok, trail)
    }

    twostate predicate Flagged(ok: bool, trail: seq<B.Round>)
      requires trail != []
      reads this`forest, this`sketches, this`dsuValid, this`updateLocked, this`lastQueryRounds, this`calls, this`trusted
    {
      && forest == trail[|trail| - 1].s.forest && dsuValid == ok && updateLocked == !ok
      && (if ok then lastQueryRounds == |trail| - 1 && (trusted <==> Trustworthy(p, Contents(), Net(), trail))
          else lastQueryRounds == old(lastQueryRounds) && trusted == old(trusted))
    }

    /** The cached answer is as it was, up to path halving. */
    twostate predicate Cached()
      reads this
    {
      && SameRoots(old(dsu), dsu) && forest == old(forest) && dsuValid && old(dsuValid) && trusted == old(trusted)
      && updateLocked == old(updateLocked) && lastQueryRounds == old(lastQueryRounds)
    }

    /** Bring the answer up to date. Whatever happens, every sketch is back at its first sample. */
    method Refresh(spurious: nat) returns (ok: bool, ghost trail: seq<B.Round>)
      requires Valid() && !dsuValid
      modifies this`dsu, this`forest, this`sketches, this`dsuValid, this`sharedDsuValid, this`updateLocked,
               this`lastQueryRounds, this`calls, this`trusted
      ensures Valid() && Net() == old(Net()) && Contents() == old(Contents())
      ensures Queried(ok, trail) && dsu == trail[|trail| - 1].s.d
    {
      ok, trail := BoruvkaEmulation(spurious);
      SameRootsSelf(dsu);
      Settle(ok, trail);
    }

    /** The end of a query, good or bad. */
    method Settle(ok: bool, ghost trail: seq<B.Round>)
      requires Sane() && Q.WholeQuery(p, Contents(), prio, threads, trail, ok) && dsuValid == sharedDsuValid == ok
      requires dsu == trail[|trail| - 1].s.d && forest == trail[|trail| - 1].s.forest
      modifies this`sketches, this`calls, this`trusted
      ensures Valid() && Net() == old(Net()) && Contents() == old(Contents())
      ensures if ok then trusted <==> Trustworthy(p, Contents(), Net(), trail) else trusted == old(trusted)
    {
      ResetSamples();
      if ok {
        Judge(trail);
      }
    }

    /** Decide whether the answer just computed can be trusted. */
    ghost method Judge(trail: seq<B.Round>)
      requires Sane() && AtStart(sketches) && dsuValid && sharedDsuValid && B.IsTrail(p, Contents(), prio, trail)
      requires var last := trail[|trail| - 1]; !last.except && !last.s.modified && dsu == last.s.d && forest == last.s.forest
      modifies this`calls, this`trusted
      ensures Valid() && Net() == old(Net()) && (trusted <==> Trustworthy(p, Contents(), Net(), trail))
    {
      NetSimple();
      var good := Trustworthy(p, Contents(), Net(), trail);
      if good {
        AnswerTrusted(p, Contents(), Net(), prio, trail);
      }
      Rebase(Net(), good);
    }

    /** A trusted answer is the answer: the forest and the union-find are those of the graph. */
    lemma TrustedAnswer()
      requires Valid() && dsuValid && trusted
      ensures Spans(dsu, Net()) && Spans(dsu, forest) && forest <= Net()
      ensures Acyclic(forest) && |forest| + |dsu.Roots()| == n
    {
      E.CachedAnswer(EagerView());
    }

    /** Path halving by a reader. */
    method Halve(e: Dsu)
      requires Valid() && SameRoots(dsu, e)
      modifies this`dsu
      ensures Valid() && dsu == e
    {
      S.SameRootsForest(dsu, e, forest);
      if dsuValid && trusted {
        E.HalvedBetween(EagerView(), e);
      }
      dsu := e;
      assert dsuValid && trusted ==> E.EagerInv(EagerView());
    }

    /** The union-find an answer starts from: the cached one, or the one the query left. */
    ghost function Source(was: Dsu, trail: seq<B.Round>): Dsu {
      if trail == [] then was else trail[|trail| - 1].s.d
    }

    /**
     * connected_components: from the cache if it is valid, otherwise by a query. The labels and
     * the count are those that some run of the parallel loop leaves.
     */
    method ConnectedComponents(spurious: nat) returns (r: Result<Components>, ghost trail: seq<B.Round>)
      requires Valid()
      modifies this`dsu, this`forest, this`sketches, this`dsuValid, this`sharedDsuValid, this`updateLocked,
               this`lastQueryRounds, this`calls, this`trusted
      ensures Valid() && Net() == old(Net()) && Contents() == old(Contents())
      ensures if old(dsuValid) then trail == [] && r.Ok? && Cached() else Queried(r.Ok?, trail)
      ensures r.Err? ==> r.error == OutOfSamplesLeft
      ensures r.Ok? ==> Snap.Taken(Source(old(dsu), trail), threads, dsu, r.value.labels, r.value.count)
      ensures r.Ok? ==>
                Snap.Snapped(dsu, r.value.labels, r.value.count) && Snap.FarLabels(Source(old(dsu), trail), r.value.labels)
      ensures r.Ok? && (threads == 1 || F.Low(Source(old(dsu), trail))) ==> Snap.Faithful(dsu, r.value.labels, r.value.count)
      ensures r.Ok? && trusted ==> Spans(dsu, Net())
    {
      var ok;
      ok, trail := EnsureAnswer(spurious);
      assert dsu == Source(old(dsu), trail);
      r := Answer(ok);
    }

    /** A query, unless the answer is valid. */
    method EnsureAnswer(spurious: nat) returns (ok: bool, ghost trail: seq<B.Round>)
      requires Valid()
      modifies this`dsu, this`forest, this`sketches, this`dsuValid, this`sharedDsuValid, this`updateLocked,
               this`lastQueryRounds, this`calls, this`trusted
      ensures Valid() && Net() == old(Net()) && Contents() == old(Contents())
      ensures if old(dsuValid) then trail == [] && ok && Cached() else Queried(ok, trail)
      ensures dsu == Source(old(dsu), trail) && dsuValid == ok
    {
      ok, trail := true, [];
      SameRootsSelf(dsu);
      if !sharedDsuValid {
        ok, trail := Refresh(spurious);
      }
    }

    /** A snapshot, or the exception of a query that ran out of samples. */
    method Answer(ok: bool) returns (r: Result<Components>)
      requires Valid() && dsuValid == ok
      modifies this`dsu
      ensures Valid() && SameRoots(old(dsu), dsu) && (if ok then r.Ok? else r == Err(OutOfSamplesLeft))
      ensures ok ==> Snap.Taken(old(dsu), threads, dsu, r.value.labels, r.value.count)
      ensures ok ==> Snap.Snapped(dsu, r.value.labels, r.value.count) && Snap.FarLabels(old(dsu), r.value.labels)
      ensures ok && (threads == 1 || F.Low(old(dsu))) ==> Snap.Faithful(dsu, r.value.labels, r.value.count)
      ensures ok && trusted ==> Spans(dsu, Net())
    {
      if !ok {
        SameRootsSelf(dsu);
        return Err(OutOfSamplesLeft);
      }
      var c := TakeSnapshot();
      return Ok(c);
    }

    /** The constructor of ConnectedComponents on the current union-find. */
    method TakeSnapshot() returns (c: Components)
      requires Valid() && dsuValid
      modifies this`dsu
      ensures Valid() && SameRoots(old(dsu), dsu) && Snap.Taken(old(dsu), threads, dsu, c.labels, c.count)
      ensures Snap.Snapped(dsu, c.labels, c.count) && Snap.FarLabels(old(dsu), c.labels)
      ensures threads == 1 || F.Low(old(dsu)) ==> Snap.Faithful(dsu, c.labels, c.count)
      ensures trusted ==> Spans(dsu, Net())
    {
      var e, labels, count := Snap.ConnectedComponents(dsu, threads);
      SnappedSame(dsu, e, labels, count);
      Halve(e);
      if trusted {
        TrustedAnswer();
      }
      return Components(labels, count);
    }

    /** calc_spanning_forest: as connected_components, answering with the forest, by smaller endpoint. */
    method CalcSpanningForest(spurious: nat) returns (r: Result<seq<Edge>>, ghost trail: seq<B.Round>)
      requires Valid()
      modifies this`dsu, this`forest, this`sketches, this`dsuValid, this`sharedDsuValid, this`updateLocked,
               this`lastQueryRounds, this`calls, this`trusted
      ensures Valid() && Net() == old(Net()) && Contents() == old(Contents())
      ensures if old(dsuValid) then trail == [] && r.Ok? && Cached() else Queried(r.Ok?, trail)
      ensures r.Err? ==> r.error == OutOfSamplesLeft
      ensures r.Ok? ==> multiset(r.value) == multiset(if trail == [] then old(forest) else trail[|trail| - 1].s.forest)
      ensures r.Ok? ==> forall i: nat, j: nat | i < j < |r.value| :: r.value[i].src <= r.value[j].src
      ensures r.Ok? ==> Acyclic(forest) && Spans(dsu, forest) && |r.value| + |dsu.Roots()| == n
      ensures r.Ok? && trusted ==> Spans(dsu, Net()) && forest <= Net()
    {
      var c;
      c, trail := ConnectedComponents(spurious);
      if c.Err? {
        return Err(c.error), trail;
      }
      if trusted {
        TrustedAnswer();
      }
      var edges := Snap.ListEdges(forest, n);
      assert |edges| == |multiset(edges)|;
      return Ok(edges), trail;
    }

    /** point_query: the cache or a query, then two searches that nothing interferes with. */
    method PointQuery(a: nat, b: nat, spurious: nat) returns (r: Result<bool>, ghost trail: seq<B.Round>)
      requires Valid() && a < n && b < n
      modifies this`dsu, this`forest, this`sketches, this`dsuValid, this`sharedDsuValid, this`updateLocked,
               this`lastQueryRounds, this`calls, this`trusted
      ensures Valid() && Net() == old(Net()) && Contents() == old(Contents())
      ensures if old(dsuValid) then trail == [] && r.Ok? && Cached() else Queried(r.Ok?, trail)
      ensures r.Err? ==> r.error == OutOfSamplesLeft
      ensures r.Ok? ==> SameRoots(Source(old(dsu), trail), dsu) && r.value == Source(old(dsu), trail).SameSet(a, b)
      ensures r.Ok? && trusted ==> (r.value <==> Connected(Net(), a, b))
    {
      var ok;
      ok, trail := EnsureAnswer(spurious);
      r := SameRoot(ok, a, b);
    }

    /** Two searches, or the exception of a query that ran out of samples. */
    method SameRoot(ok: bool, a: nat, b: nat) returns (r: Result<bool>)
      requires Valid() && dsuValid == ok && a < n && b < n
      modifies this`dsu
      ensures Valid() && SameRoots(old(dsu), dsu)
      ensures if ok then r == Ok(old(dsu.SameSet(a, b))) else r == Err(OutOfSamplesLeft)
      ensures ok && trusted ==> (r.value <==> Connected(Net(), a, b))
    {
      SameRootsSelf(dsu);
      if !ok {
        return Err(OutOfSamplesLeft);
      }
      ghost var before := dsu;
      var d, x := A.FindRoot(dsu, a);
      Halve(d);
      var e, y := A.FindRoot(dsu, b);
      SameRootsTrans(before, d, e);
      Halve(e);
      if trusted {
        TrustedAnswer();
      }
      return Ok(x == y);
    }
  }
}
