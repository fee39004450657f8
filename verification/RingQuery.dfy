// The first two rounds of a query on a ring, run by the threads step by step: the chains
// grow, and the labels race (src/cc_sketch_alg.cpp, boruvka_emulation).

module RingQuery {
  import opened Counting
  import opened Pairing
  import opened Graphs
  import opened Buckets
  import opened DsuSpec
  import opened SketchSpec
  import opened Partition
  import opened RoundSpec
  import opened Cuts
  import opened BoruvkaSpec
  import opened Boruvka
  import opened Rings
  import opened RingStart
  import opened RingLabels
  import L = LoneIterations
  import M = MergeInstructions
  import R = RoundRuns
  import S = Supernode
  import Z = RoundZero

  /** A ring laid out for the threads, and hashed and sketched as wanted. */
  ghost predicate Stage(c: Ring, threads: nat, owner: seq<nat>, p: Params, vs: seq<seq<Bucket>>) {
    && Seated(c, threads) && Z.Shares(owner, c.n, threads) && Consistent(c, owner)
    && Hashed(c, p, vs) && p.numSamples > 1
  }

  function Begun(c: Ring, threads: nat, owner: seq<nat>, p: Params, vs: seq<seq<Bucket>>): L.Given {
    L.Given(p, vs, Singletons(RingPrio(c)), threads, owner)
  }

  lemma StageBegins(c: Ring, threads: nat, owner: seq<nat>, p: Params, vs: seq<seq<Bucket>>)
    requires Stage(c, threads, owner, p, vs)
    ensures OnRing(c, Begun(c, threads, owner, p, vs)) && Simple(c.Net(), NODE_LIMIT)
    ensures forall v: nat | v < |vs| :: |vs[v]| == p.NumBuckets()
  {
    SingletonsSpanned(RingPrio(c));
    NetSimple(c);
    forall v: nat | v < |vs|
      ensures |vs[v]| == p.NumBuckets()
    {
      assert vs[v] == SketchOf(p, Ids(Incident(c.Net(), v)));
    }
  }

  // Round 0

  function FirstOf(c: Ring, z: Z.State): Round {
    Round(Z.Identity(c.n), Singletons(RingPrio(c)), {}, z.sys, z.except, z.log)
  }

  /** What round 0 leaves: a real run, on honest checksums, and the chains grown. */
  ghost predicate FirstDone(c: Ring, threads: nat, p: Params, vs: seq<seq<Bucket>>, r: Round) {
    && Hashed(c, p, vs) && Simple(c.Net(), NODE_LIMIT) && Finished(p, vs, 0, r) && Reached(p, vs, threads, 0, r)
    && SoundRound(p, c.Net(), r) && Grown(c, r.s.d, |c.at|)
    && r.mi == Z.Identity(c.n) && r.d == Singletons(RingPrio(c)) && r.f == {}
  }

  lemma FirstRound(c: Ring, threads: nat, owner: seq<nat>, p: Params, vs: seq<seq<Bucket>>) returns (r: Round)
    requires Stage(c, threads, owner, p, vs)
    ensures FirstDone(c, threads, p, vs, r)
  {
    StageBegins(c, threads, owner, p, vs);
    var g := Begun(c, threads, owner, p, vs);
    var z := GrownRun(c, g);
    r := FirstOf(c, z);
    FirstFinished(c, g, z);
    assert ByFirst(p, vs, threads, r, owner, z);
    FirstSound(c, p, vs, r);
  }

  lemma FirstFinished(c: Ring, g: L.Given, z: Z.State)
    requires OnRing(c, g) && Z.Result(g.p, g.vs, g.d, {}, g.threads, g.owner, z)
    ensures Finished(g.p, g.vs, 0, FirstOf(c, z))
  {
    Z.ResultRight(g.p, g.vs, g.d, {}, g.threads, g.owner, z);
    assert c.at[0] < c.n;
    IdentityReady(|g.vs|);
  }

  lemma FirstSound(c: Ring, p: Params, vs: seq<seq<Bucket>>, r: Round)
    requires Hashed(c, p, vs) && Simple(c.Net(), NODE_LIMIT) && p.numSamples > 0 && r.mi == Z.Identity(c.n)
    ensures SoundRound(p, c.Net(), r)
  {
    forall k: nat | k < |r.mi|
      ensures SoundCut(p, c.Net(), Group(r.mi, r.mi[k].root))
    {
      LoneGroupIs(c.n, k);
      if k in c.at {
        var i: nat :| i < |c.at| && c.at[i] == k;
        ArcAnswer(c, p, vs, {k}, i, i + 1, 0);
      } else {
        OffAnswer(c, p, vs, {k}, 0);
      }
    }
  }

  lemma LoneGroupIs(n: nat, k: nat)
    requires k < n
    ensures Group(Z.Identity(n), Z.Identity(n)[k].root) == {k}
  {
    assert k in Range(0, n) && Z.Identity(n)[k].root == k;
  }

  lemma NothingConnected(a: nat, b: nat)
    requires Connected({}, a, b)
    ensures a == b
  {
    assert Closed({}, iset{a});
  }

  /** The query goes on after it. */
  lemma FirstModifies(c: Ring, threads: nat, p: Params, vs: seq<seq<Bucket>>, r: Round)
    requires FirstDone(c, threads, p, vs, r) && p.numSamples > 0 && c.n > 0
    ensures !r.except && r.s.modified && S.ForestOf(r.s.d, r.s.forest)
  {
    ThrowsIff(p, vs, 0, r);
    S.Quiescent(r.s, r.f);
    ChainTop(c, r.s.d, 0);
    ChainTop(c, r.s.d, 1);
    assert r.s.d.SameSet(c.at[0], c.at[1]);
    if r.s.forest == {} {
      NothingConnected(c.at[0], c.at[1]);
    }
  }

  // Round 1

  /** What the second round starts from and leaves: labels that raced, and a real run on honest checksums. */
  ghost predicate SecondDone(c: Ring, threads: nat, p: Params, vs: seq<seq<Bucket>>, a: Round, r: Round, lab: seq<nat>) {
    && Hashed(c, p, vs) && Simple(c.Net(), NODE_LIMIT) && Finished(p, vs, 1, r) && Reached(p, vs, threads, 1, r)
    && SoundRound(p, c.Net(), r) && Regrouped(threads, a, r) && Follows(a, r)
    && Labelling(c, lab) && FiledBy(r.mi, lab)
  }

  lemma SecondRound(c: Ring, threads: nat, p: Params, vs: seq<seq<Bucket>>, a: Round) returns (r: Round, lab: seq<nat>)
    requires FirstDone(c, threads, p, vs, a) && p.numSamples > 1 && Seated(c, threads)
    ensures SecondDone(c, threads, p, vs, a, r, lab)
  {
    FirstModifies(c, threads, p, vs, a);
    var e, mi, x := RacedInstructions(c, a.s.d, threads);
    lab := x;
    IdentityReady(c.n);
    M.OutcomeFiled(a.s.d, a.mi, threads, e, mi);
    S.SameRootsForest(a.s.d, e, a.s.forest);
    r := RunOn(p, vs, threads, mi, e, a.s.forest);
    SecondSound(c, p, vs, r, lab);
  }

  /** Some run of the round that these instructions begin. */
  lemma RunOn(p: Params, vs: seq<seq<Bucket>>, threads: nat, mi: seq<MergeInstr>, e: Dsu, f: Graph) returns (r: Round)
    requires p.Valid() && 1 <= threads <= |mi| == |vs| == e.Size() && Sorted(mi) && M.Permutation(mi) && S.ForestOf(e, f)
    requires forall v: nat | v < |vs| :: |vs[v]| == p.NumBuckets()
    ensures Finished(p, vs, 1, r) && Reached(p, vs, threads, 1, r) && r.mi == mi && r.d == e && r.f == f
  {
    CfgOfValid(p, 1, mi, threads, vs);
    var s := R.SomeResult(CfgOf(p, 1, mi, threads, vs), e, f);
    R.ResultRight(CfgOf(p, 1, mi, threads, vs), e, f, s);
    r := Round(mi, e, f, s.sys, s.except, s.log);
    assert ByLater(p, vs, threads, 1, r, s);
  }

  lemma SecondSound(c: Ring, p: Params, vs: seq<seq<Bucket>>, r: Round, lab: seq<nat>)
    requires Hashed(c, p, vs) && Simple(c.Net(), NODE_LIMIT) && p.numSamples > 1
    requires Labelling(c, lab) && FiledBy(r.mi, lab) && M.Permutation(r.mi)
    ensures SoundRound(p, c.Net(), r)
  {
    forall k: nat | k < |r.mi|
      ensures SoundCut(p, c.Net(), Group(r.mi, r.mi[k].root))
    {
      GroupHaving(r.mi, lab, r.mi[k].root);
      LaterAnswer(c, p, vs, lab, r.mi[k].child);
    }
  }

  /** No sample of the second round fails, and what each finds is known. */
  lemma SecondKnown(c: Ring, threads: nat, p: Params, vs: seq<seq<Bucket>>, a: Round, r: Round, lab: seq<nat>)
    requires SecondDone(c, threads, p, vs, a, r, lab) && p.numSamples > 1
    ensures NoneFails(p, vs, 1, r.mi)
    ensures forall x | FoundBy(p, vs, 1, r.mi, x) :: LaterFinds(c, x)
  {
    forall k: nat | k < |r.mi|
      ensures LaterKnown(c, Answer(p, vs, 1, Group(r.mi, r.mi[k].root)))
    {
      OneKnown(c, p, vs, r.mi, lab, k);
    }
    forall x | FoundBy(p, vs, 1, r.mi, x)
      ensures LaterFinds(c, x)
    {
      var k: nat :| k < |r.mi| && FindsEdge(Answer(p, vs, 1, Group(r.mi, r.mi[k].root)), x);
      assert LaterKnown(c, Answer(p, vs, 1, Group(r.mi, r.mi[k].root)));
    }
  }

  /** Nothing found, or a side found that the round is known to find. */
  ghost predicate LaterKnown(c: Ring, o: Outcome)
    requires c.Valid()
  {
    o == ZeroSample || (o.GoodSample? && LaterFinds(c, InvConcatPairing(o.idx)))
  }

  lemma OneKnown(c: Ring, p: Params, vs: seq<seq<Bucket>>, mi: seq<MergeInstr>, lab: seq<nat>, k: nat)
    requires Hashed(c, p, vs) && p.numSamples > 1 && Labelling(c, lab) && FiledBy(mi, lab) && M.Permutation(mi) && k < |mi|
    ensures LaterKnown(c, Answer(p, vs, 1, Group(mi, mi[k].root)))
  {
    GroupHaving(mi, lab, mi[k].root);
    LaterAnswer(c, p, vs, lab, mi[k].child);
    if mi[k].child in c.at {
      var i: nat :| i < |c.at| && c.at[i] == mi[k].child &&
                    Answer(p, vs, 1, Group(mi, mi[k].root)) == GoodSample(IdAt(c, LaterSide(|c.at|, i)));
      SideDecodes(c, LaterSide(|c.at|, i));
    }
  }

  // Both

  /** A query of the threads that has run its first two rounds this way. */
  ghost predicate RingTrail(c: Ring, threads: nat, p: Params, vs: seq<seq<Bucket>>, trail: seq<Round>) {
    && Hashed(c, p, vs) && Simple(c.Net(), NODE_LIMIT) && |trail| == 2
    && IsTrail(p, vs, RingPrio(c), trail) && Grouped(threads, trail) && Ran(p, vs, threads, trail)
    && SoundTrail(p, c.Net(), trail) && FirstDone(c, threads, p, vs, trail[0])
    && exists lab: seq<nat> :: SecondDone(c, threads, p, vs, trail[0], trail[1], lab)
  }

  lemma TwoTrail(p: Params, vs: seq<seq<Bucket>>, prio: seq<nat>, a: Round, b: Round)
    requires Finished(p, vs, 0, a) && Finished(p, vs, 1, b) && Follows(a, b)
    requires a.mi == Z.Identity(|vs|) && a.d == Singletons(prio) && a.f == {}
    ensures IsTrail(p, vs, prio, [a, b])
  {
    TrailBegins(p, vs, prio, a);
    TrailGrows(p, vs, prio, [a], b);
    assert [a] + [b] == [a, b];
  }

  lemma TwoGrouped(threads: nat, a: Round, b: Round)
    requires Regrouped(threads, a, b)
    ensures Grouped(threads, [a, b])
  {
    forall k: nat | 0 < k < 2
      ensures GroupedAt(threads, [a, b], k)
    {
    }
  }

  lemma TwoRan(p: Params, vs: seq<seq<Bucket>>, threads: nat, a: Round, b: Round)
    requires Reached(p, vs, threads, 0, a) && Reached(p, vs, threads, 1, b)
    ensures Ran(p, vs, threads, [a, b])
  {
    forall k: nat | k < 2
      ensures RanAt(p, vs, threads, [a, b], k)
    {
      if k == 0 {
        RanHere(p, vs, threads, [a, b], 0, a);
      } else {
        RanHere(p, vs, threads, [a, b], 1, b);
      }
    }
  }

  lemma TwoSound(p: Params, g: Graph, a: Round, b: Round)
    requires p.Valid() && Simple(g, NODE_LIMIT) && SoundRound(p, g, a) && SoundRound(p, g, b)
    ensures SoundTrail(p, g, [a, b])
  {
  }

  /** Such a query exists. */
  lemma RingRuns(c: Ring, threads: nat, owner: seq<nat>, p: Params, vs: seq<seq<Bucket>>) returns (trail: seq<Round>)
    requires Stage(c, threads, owner, p, vs)
    ensures RingTrail(c, threads, p, vs, trail)
  {
    var a := FirstRound(c, threads, owner, p, vs);
    var b, lab := SecondRound(c, threads, p, vs, a);
    trail := [a, b];
    Assembled(c, threads, p, vs, a, b, lab);
  }

  lemma Assembled(c: Ring, threads: nat, p: Params, vs: seq<seq<Bucket>>, a: Round, b: Round, lab: seq<nat>)
    requires FirstDone(c, threads, p, vs, a) && SecondDone(c, threads, p, vs, a, b, lab)
    ensures RingTrail(c, threads, p, vs, [a, b])
  {
    TwoTrail(p, vs, RingPrio(c), a, b);
    TwoGrouped(threads, a, b);
    TwoRan(p, vs, threads, a, b);
    TwoSound(p, c.Net(), a, b);
    assert [a, b][0] == a && [a, b][1] == b;
  }
}
