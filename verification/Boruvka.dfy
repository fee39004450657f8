// The loop of a query: rounds alternate with regrouping until one changes nothing
// (src/cc_sketch_alg.cpp, boruvka_emulation and perform_boruvka_round).

module Boruvka {
  import opened Counting
  import opened Graphs
  import opened Buckets
  import opened DsuSpec
  import opened DsuFindRace
  import opened SketchSpec
  import opened Partition
  import opened Jobs
  import opened RoundSpec
  import opened BoruvkaSpec
  import M = MergeInstructions
  import R = RoundRuns
  import S = Supernode
  import Z = RoundZero

  lemma IdentityReady(n: nat)
    requires n > 0
    ensures Sorted(Z.Identity(n)) && M.Permutation(Z.Identity(n))
  {
  }

  function CfgOf(p: Params, round: nat, mi: seq<MergeInstr>, threads: nat, vs: seq<seq<Bucket>>): Cfg
    requires 1 <= threads <= |mi|
  {
    Cfg(p, round, mi, MakeJob(M.Children(mi), threads), vs)
  }

  lemma CfgOfValid(p: Params, round: nat, mi: seq<MergeInstr>, threads: nat, vs: seq<seq<Bucket>>)
    requires p.Valid() && 1 <= threads <= |mi| == |vs| && Sorted(mi) && M.Permutation(mi)
    requires forall v: nat | v < |vs| :: |vs[v]| == p.NumBuckets()
    ensures CfgOf(p, round, mi, threads, vs).Valid()
  {
    MakeJobValid(M.Children(mi), threads);
    CfgValid(CfgOf(p, round, mi, threads, vs));
  }

  lemma FiledStays(mi: seq<MergeInstr>, d: Dsu, e: Dsu)
    requires M.FiledUnderRoot(mi, d) && SameRoots(d, e)
    ensures M.FiledUnderRoot(mi, e)
  {
  }

  lemma TrailExtends(p: Params, vs: seq<seq<Bucket>>, prio: seq<nat>, trail: seq<Round>, r: Round)
    requires Finished(p, vs, |trail|, r)
    requires if trail == [] then r.mi == Z.Identity(|vs|) && r.d == Singletons(prio) && r.f == {}
             else IsTrail(p, vs, prio, trail) && Follows(trail[|trail| - 1], r)
    ensures IsTrail(p, vs, prio, trail + [r])
  {
    if trail == [] {
      assert trail + [r] == [r];
      TrailBegins(p, vs, prio, r);
    } else {
      TrailGrows(p, vs, prio, trail, r);
    }
  }

  /** The sketches of n vertices, and a union-find with its forest over them. */
  ghost predicate Ready(p: Params, vs: seq<seq<Bucket>>, prio: seq<nat>, threads: nat, d: Dsu, f: Graph) {
    && p.Valid() && 1 <= threads <= |vs| == |prio| && (forall v: nat | v < |vs| :: |vs[v]| == p.NumBuckets())
    && S.ForestOf(d, f) && d.prio == prio
  }

  // Rounds that the threads can really run

  /** The run of round 0 that ends in z left r. */
  ghost predicate ByFirst(p: Params, vs: seq<seq<Bucket>>, threads: nat, r: Round, owner: seq<nat>, z: Z.State) {
    Z.Result(p, vs, r.d, r.f, threads, owner, z) && r == Round(r.mi, r.d, r.f, z.sys, z.except, z.log)
  }

  /** The run of a later round that ends in s left r. */
  ghost predicate ByLater(p: Params, vs: seq<seq<Bucket>>, threads: nat, k: nat, r: Round, s: R.State) {
    && 1 <= threads <= |r.mi| && R.Result(CfgOf(p, k, r.mi, threads, vs), r.d, r.f, s)
    && r == Round(r.mi, r.d, r.f, s.sys, s.except, s.log)
  }

  /** Some schedule of the threads, from the start of round k to its end, leaves r. */
  ghost predicate Reached(p: Params, vs: seq<seq<Bucket>>, threads: nat, k: nat, r: Round) {
    if k == 0 then exists owner: seq<nat>, z: Z.State :: ByFirst(p, vs, threads, r, owner, z)
    else exists s: R.State :: ByLater(p, vs, threads, k, r, s)
  }

  /** Every round of a query was run by the threads. */
  ghost predicate Ran(p: Params, vs: seq<seq<Bucket>>, threads: nat, trail: seq<Round>) {
    forall k: nat | k < |trail| :: RanAt(p, vs, threads, trail, k)
  }

  ghost predicate RanAt(p: Params, vs: seq<seq<Bucket>>, threads: nat, trail: seq<Round>, k: nat)
    requires k < |trail|
  {
    Reached(p, vs, threads, k, trail[k])
  }

  /** The sample indices of the vertex sketches before round k: only round 0 samples those. */
  predicate Indexed(p: Params, k: nat, idx: seq<nat>) {
    forall v: nat | v < |idx| :: idx[v] == if k == 0 || p.numSamples == 0 then 0 else 1
  }

  /** perform_boruvka_round: round 0 on the vertex sketches themselves, later ones on merged groups. */
  method PerformRound(p: Params, vs: seq<seq<Bucket>>, ghost prio: seq<nat>, threads: nat, k: nat,
                      mi: seq<MergeInstr>, d: Dsu, f: Graph, idx: seq<nat>, spurious: nat)
    returns (e: Dsu, h: Graph, next: seq<nat>, modified: bool, except: bool, ghost r: Round)
    requires Ready(p, vs, prio, threads, d, f) && |mi| == |vs| == |idx| && Sorted(mi) && M.Permutation(mi)
    requires k == 0 ==> mi == Z.Identity(|vs|)
    requires Indexed(p, k, idx)
    ensures Finished(p, vs, k, r) && r.mi == mi && r.d == d && r.f == f && Reached(p, vs, threads, k, r)
    ensures Ready(p, vs, prio, threads, e, h) && e == r.s.d && h == r.s.forest
    ensures modified == r.s.modified && except == r.except && |next| == |vs| && Indexed(p, k + 1, next)
  {
    if k == 0 {
      var owner := Z.Divide(|vs|, threads);
      var z := Z.RunRoundZero(p, vs, d, f, threads, owner, spurious);
      r := Round(mi, d, f, z.sys, z.except, z.log);
      assert ByFirst(p, vs, threads, r, owner, z);
      S.Quiescent(z.sys, f);
      return z.sys.d, z.sys.forest, z.idx, z.sys.modified, z.except, r;
    } else {
      CfgOfValid(p, k, mi, threads, vs);
      var s := R.PerformRound(CfgOf(p, k, mi, threads, vs), d, f, spurious);
      r := Round(mi, d, f, s.sys, s.except, s.log);
      assert ByLater(p, vs, threads, k, r, s);
      S.Quiescent(s.sys, f);
      return s.sys.d, s.sys.forest, idx, s.sys.modified, s.except, r;
    }
  }

  /** The next round can continue where r stopped. */
  ghost predicate Resumes(r: Round, d: Dsu, f: Graph) {
    !r.except && r.s.modified && f == r.s.forest && SameRoots(r.s.d, d)
  }

  /** The instructions of every round but the first were made from the union-find the round before left. */
  ghost predicate Grouped(threads: nat, trail: seq<Round>) {
    forall k: nat | 0 < k < |trail| :: GroupedAt(threads, trail, k)
  }

  ghost predicate GroupedAt(threads: nat, trail: seq<Round>, k: nat)
    requires 0 < k < |trail|
  {
    Regrouped(threads, trail[k - 1], trail[k])
  }

  ghost predicate Regrouped(threads: nat, r: Round, next: Round) {
    1 <= threads <= |r.mi| && M.Outcome(r.s.d, r.mi, threads, next.d, next.mi)
  }

  /** Labels are exact in the first round, and after it with one thread or from a low forest. */
  lemma ExactWhen(p: Params, vs: seq<seq<Bucket>>, prio: seq<nat>, threads: nat, trail: seq<Round>, k: nat)
    requires IsTrail(p, vs, prio, trail) && Grouped(threads, trail) && k < |trail|
    requires k == 0 || threads == 1 || (trail[k - 1].s.d.Valid() && Low(trail[k - 1].s.d))
    ensures Exact(trail[k])
  {
    assert Finished(p, vs, k, trail[k]);
    if k == 0 {
      FirstExact(p, vs, prio, trail);
    } else {
      var r := trail[k - 1];
      assert Finished(p, vs, k - 1, r) && GroupedAt(threads, trail, k);
      S.Quiescent(r.s, r.f);
      ExactAfter(threads, r, trail[k]);
    }
  }

  lemma ExactAfter(threads: nat, r: Round, next: Round)
    requires Regrouped(threads, r, next) && r.s.d.Valid() && r.s.d.Size() == |r.mi| && M.Permutation(r.mi)
    requires threads == 1 || Low(r.s.d)
    ensures SameRoots(r.s.d, next.d) && Exact(next)
  {
    M.OutcomeFiled(r.s.d, r.mi, threads, next.d, next.mi);
    FiledStays(next.mi, r.s.d, next.d);
  }

  /** With one thread, or with at most five vertices, every round is exact. */
  lemma AlwaysExact(p: Params, vs: seq<seq<Bucket>>, prio: seq<nat>, threads: nat, trail: seq<Round>)
    requires IsTrail(p, vs, prio, trail) && Grouped(threads, trail) && (threads == 1 || |vs| <= 5)
    ensures ExactTrail(trail)
  {
    forall k: nat | k < |trail|
      ensures Exact(trail[k])
    {
      if k > 0 {
        assert Finished(p, vs, k - 1, trail[k - 1]);
        S.Quiescent(trail[k - 1].s, trail[k - 1].f);
        if |vs| <= 5 {
          SmallIsLow(trail[k - 1].s.d);
        }
      }
      ExactWhen(p, vs, prio, threads, trail, k);
    }
  }

  /** Where a query stands between two rounds. */
  ghost predicate InQuery(p: Params, vs: seq<seq<Bucket>>, prio: seq<nat>, threads: nat, mi: seq<MergeInstr>,
                          d: Dsu, f: Graph, idx: seq<nat>, trail: seq<Round>) {
    && |mi| == |idx| == |vs| && Sorted(mi) && M.Permutation(mi) && Indexed(p, |trail|, idx)
    && (if trail == [] then
          mi == Z.Identity(|vs|) && d == Singletons(prio) && f == {}
        else IsTrail(p, vs, prio, trail) && Resumes(trail[|trail| - 1], d, f))
    && Grouped(threads, trail) && Ran(p, vs, threads, trail) && 1 <= threads <= |mi|
    && (trail != [] ==> |trail[|trail| - 1].mi| == |mi| && M.Outcome(trail[|trail| - 1].s.d, trail[|trail| - 1].mi, threads, d, mi))
  }

  lemma QueryStarts(p: Params, vs: seq<seq<Bucket>>, prio: seq<nat>, threads: nat, idx: seq<nat>)
    requires p.Valid() && 1 <= threads <= |vs| == |prio| == |idx|
    requires forall v: nat | v < |vs| :: |vs[v]| == p.NumBuckets() && idx[v] == 0
    ensures Ready(p, vs, prio, threads, Singletons(prio), {})
    ensures InQuery(p, vs, prio, threads, Z.Identity(|vs|), Singletons(prio), {}, idx, [])
  {
    SingletonsSpanned(prio);
    IdentityReady(|vs|);
  }

  lemma GroupedGrows(threads: nat, trail: seq<Round>, r: Round)
    requires Grouped(threads, trail) && (trail == [] || Regrouped(threads, trail[|trail| - 1], r))
    ensures Grouped(threads, trail + [r])
  {
    var next := trail + [r];
    forall k: nat | 0 < k < |next|
      ensures GroupedAt(threads, next, k)
    {
      if k < |trail| {
        assert GroupedAt(threads, trail, k);
      }
    }
  }

  method NextRound(p: Params, vs: seq<seq<Bucket>>, ghost prio: seq<nat>, threads: nat, k: nat,
                   mi: seq<MergeInstr>, d: Dsu, f: Graph, idx: seq<nat>, spurious: nat, ghost trail: seq<Round>)
    returns (e: Dsu, h: Graph, next: seq<nat>, modified: bool, except: bool, ghost longer: seq<Round>)
    requires Ready(p, vs, prio, threads, d, f) && InQuery(p, vs, prio, threads, mi, d, f, idx, trail) && k == |trail|
    ensures Ready(p, vs, prio, threads, e, h) && |next| == |vs| && Indexed(p, k + 1, next)
    ensures IsTrail(p, vs, prio, longer) && |longer| == k + 1
    ensures e == longer[k].s.d && h == longer[k].s.forest && modified == longer[k].s.modified
    ensures except == longer[k].except && (except <==> k >= p.numSamples)
    ensures Grouped(threads, longer) && Ran(p, vs, threads, longer) && longer[k].mi == mi
  {
    ghost var r;
    e, h, next, modified, except, r := PerformRound(p, vs, prio, threads, k, mi, d, f, idx, spurious);
    longer := trail + [r];
    QueryGrows(p, vs, prio, threads, mi, d, f, idx, trail, r);
  }

  /** A further round makes a longer query. */
  lemma QueryGrows(p: Params, vs: seq<seq<Bucket>>, prio: seq<nat>, threads: nat, mi: seq<MergeInstr>,
                   d: Dsu, f: Graph, idx: seq<nat>, trail: seq<Round>, r: Round)
    requires InQuery(p, vs, prio, threads, mi, d, f, idx, trail) && r.mi == mi && r.d == d && r.f == f
    requires Finished(p, vs, |trail|, r) && Reached(p, vs, threads, |trail|, r) && |vs| > 0
    ensures IsTrail(p, vs, prio, trail + [r]) && Grouped(threads, trail + [r]) && Ran(p, vs, threads, trail + [r])
    ensures r.except <==> |trail| >= p.numSamples
  {
    TrailExtends(p, vs, prio, trail, r);
    ThrowsIff(p, vs, |trail|, r);
    GroupedGrows(threads, trail, r);
    RanGrows(p, vs, threads, trail, r);
  }

  lemma RanGrows(p: Params, vs: seq<seq<Bucket>>, threads: nat, trail: seq<Round>, r: Round)
    requires Ran(p, vs, threads, trail) && Reached(p, vs, threads, |trail|, r)
    ensures Ran(p, vs, threads, trail + [r])
  {
    forall k: nat | k < |trail + [r]|
      ensures RanAt(p, vs, threads, trail + [r], k)
    {
      if k < |trail| {
        assert RanAt(p, vs, threads, trail, k);
        RanHere(p, vs, threads, trail + [r], k, trail[k]);
      } else {
        RanHere(p, vs, threads, trail + [r], k, r);
      }
    }
  }

  lemma RanHere(p: Params, vs: seq<seq<Bucket>>, threads: nat, trail: seq<Round>, k: nat, r: Round)
    requires k < |trail| && trail[k] == r && Reached(p, vs, threads, k, r)
    ensures RanAt(p, vs, threads, trail, k)
  {
  }

  /** create_merge_instructions between two rounds. */
  method Regroup(p: Params, vs: seq<seq<Bucket>>, ghost prio: seq<nat>, threads: nat, old_mi: seq<MergeInstr>,
                 d: Dsu, ghost f: Graph, ghost idx: seq<nat>, ghost trail: seq<Round>)
    returns (e: Dsu, mi: seq<MergeInstr>)
    requires Ready(p, vs, prio, threads, d, f) && |old_mi| == |idx| == |vs| && M.Permutation(old_mi)
    requires IsTrail(p, vs, prio, trail) && Resumes(trail[|trail| - 1], d, f)
    requires Indexed(p, |trail|, idx)
    requires Grouped(threads, trail) && Ran(p, vs, threads, trail) && d == trail[|trail| - 1].s.d && trail[|trail| - 1].mi == old_mi
    ensures Ready(p, vs, prio, threads, e, f) && InQuery(p, vs, prio, threads, mi, e, f, idx, trail) && SameRoots(d, e)
  {
    e, mi := M.CreateMergeInstructions(d, old_mi, threads);
    S.SameRootsForest(d, e, f);
    SameRootsTrans(trail[|trail| - 1].s.d, d, e);
  }

  /**
   * The rounds of a whole query, all run by the threads, on instructions made from what the round
   * before left. It ends with one that changes nothing, or with an exception when the samples are used up.
   */
  ghost predicate WholeQuery(p: Params, vs: seq<seq<Bucket>>, prio: seq<nat>, threads: nat, trail: seq<Round>, ok: bool) {
    && IsTrail(p, vs, prio, trail) && Grouped(threads, trail) && Ran(p, vs, threads, trail)
    && |trail| <= p.numSamples + 1 && (ok <==> |trail| <= p.numSamples)
    && (ok <==> !trail[|trail| - 1].except) && (ok ==> !trail[|trail| - 1].s.modified)
  }

  /**
   * The loop. It ends when a round changes nothing or throws; a round throws exactly when
   * its number has reached the number of samples, so it always ends.
   */
  method Emulate(p: Params, vs: seq<seq<Bucket>>, prio: seq<nat>, threads: nat, start: seq<nat>, spurious: nat)
    returns (ok: bool, d: Dsu, f: Graph, idx: seq<nat>, rounds: nat, ghost trail: seq<Round>)
    requires p.Valid() && 1 <= threads <= |vs| == |prio| == |start|
    requires forall v: nat | v < |vs| :: |vs[v]| == p.NumBuckets() && start[v] == 0
    ensures Ready(p, vs, prio, threads, d, f) && |idx| == |vs| && Indexed(p, 1, idx)
    ensures WholeQuery(p, vs, prio, threads, trail, ok) && rounds == |trail| - 1
    ensures d == trail[rounds].s.d && f == trail[rounds].s.forest
  {
    d, f, idx, rounds, trail := Singletons(prio), {}, start, 0, [];
    var mi := Z.Identity(|vs|);
    QueryStarts(p, vs, prio, threads, start);
    while true
      invariant Ready(p, vs, prio, threads, d, f) && InQuery(p, vs, prio, threads, mi, d, f, idx, trail)
      invariant |trail| == rounds <= p.numSamples
      decreases p.numSamples - rounds
    {
      var modified, except;
      d, f, idx, modified, except, trail :=
        NextRound(p, vs, prio, threads, rounds, mi, d, f, idx, spurious, trail);
      if except {
        return false, d, f, idx, rounds, trail;
      }
      if !modified {
        return true, d, f, idx, rounds, trail;
      }
      d, mi := Regroup(p, vs, prio, threads, mi, d, f, idx, trail);
      rounds := rounds + 1;
    }
  }
}
