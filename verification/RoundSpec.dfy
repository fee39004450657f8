// The fixed data of one Boruvka round: instructions, partitions, vertex sketches, and
// what the sample of each component ought to be (src/cc_sketch_alg.cpp, lines 246-380).

module RoundSpec {
  import opened Counting
  import opened Buckets
  import opened SketchSpec
  import opened Partition
  import opened Graphs
  import opened DsuSpec
  import opened Jobs
  import opened SampleLog
  import M = MergeInstructions
  import S = Supernode

  /** The i-th bucket of every vertex sketch. */
  function Column(vs: seq<seq<Bucket>>, i: nat): nat -> Bucket {
    (v: nat) => if v < |vs| && i < |vs[v]| then vs[v][i] else ZERO
  }

  /** The XOR of the sketches of a set of vertices. */
  ghost function Xored(p: Params, vs: seq<seq<Bucket>>, c: set<nat>): (r: seq<Bucket>)
    requires p.Valid()
    ensures |r| == p.NumBuckets()
    ensures forall i: nat | i < |r| :: r[i] == Sum(c, Column(vs, i))
  {
    seq(p.NumBuckets(), i requires 0 <= i => Sum(c, Column(vs, i)))
  }

  /** The vertices filed under a root. */
  ghost function Group(mi: seq<MergeInstr>, root: nat): set<nat> {
    set k | k in Range(0, |mi|) && mi[k].root == root :: mi[k].child
  }

  /** What a sample of a group of vertices must answer in a round. */
  ghost function Answer(p: Params, vs: seq<seq<Bucket>>, round: nat, group: set<nat>): Outcome
    requires p.Valid()
  {
    Sampled(p, SketchVal(Xored(p, vs, group), round))
  }

  ghost predicate EntryRight(p: Params, vs: seq<seq<Bucket>>, round: nat, mi: seq<MergeInstr>, e: Entry)
    requires p.Valid()
  {
    && (exists k: nat :: k < |mi| && mi[k].root == e.root)
    && e.outcome == Answer(p, vs, round, Group(mi, e.root))
  }

  /** Every group is sampled exactly once, on exactly its members' sketches. */
  ghost predicate Reported(p: Params, vs: seq<seq<Bucket>>, round: nat, mi: seq<MergeInstr>, log: seq<Entry>)
    requires p.Valid()
  {
    && OncePerRoot(log)
    && (forall a: nat | a < |log| :: EntryRight(p, vs, round, mi, log[a]))
    && (forall k: nat | k < |mi| :: Logged(log, mi[k].root))
  }

  /**
   * The state s in which a finished round leaves the shared variables: every group was
   * sampled once, every outcome has had its effect, no thread is still at work.
   */
  ghost predicate RoundOk(p: Params, vs: seq<seq<Bucket>>, round: nat, mi: seq<MergeInstr>,
                          d: Dsu, f: Graph, s: S.Sys, except: bool, log: seq<Entry>)
    requires p.Valid()
  {
    && Reported(p, vs, round, mi, log) && Record(s, except, log)
    && S.SysInv(s, f) && Evolves(d, s.d) && forall t: nat | t < |s.sups| :: s.sups[t].Idle?
  }

  datatype Cfg = Cfg(p: Params, round: nat, mi: seq<MergeInstr>, j: Job, vs: seq<seq<Bucket>>) {

    /** The pieces fit together: enough for every index the algorithm computes. */
    predicate Shaped() {
      && p.Valid() && |mi| == |j.child| == |j.owner| == |vs|
      && |j.lo| >= 2 && j.lo[0] == 0 && j.lo[|j.lo| - 1] == |mi|
      && (forall t: nat | t < |j.lo| :: j.lo[t] <= |mi|)
      && (forall k: nat | k < |mi| :: mi[k].child == j.child[k] < |mi|)
      && (forall k: nat | k < |mi| :: j.owner[k] + 1 < |j.lo| && j.lo[j.owner[k]] <= k < j.lo[j.owner[k] + 1])
      && (forall v: nat | v < |vs| :: |vs[v]| == p.NumBuckets())
    }

    /** Enough for positions and partitions to be looked up. */
    predicate Indexed() {
      && p.Valid() && |j.owner| == |mi| && |j.lo| > 0
      && (forall t: nat | t < |j.lo| :: j.lo[t] <= |mi|)
      && (forall k: nat | k < |mi| :: j.owner[k] + 1 < |j.lo|)
    }

    ghost predicate Rises(t: nat, u: nat) {
      t < u < |j.lo| ==> j.lo[t] < j.lo[u]
    }

    ghost predicate Owns(t: nat, k: nat) {
      t + 1 < |j.lo| && k < |j.owner| && j.lo[t] <= k < j.lo[t + 1] ==> j.owner[k] == t
    }

    ghost predicate InOrder(i: nat, k: nat) {
      i <= k < |mi| ==> mi[i].root <= mi[k].root
    }

    ghost predicate Distinct(i: nat, k: nat) {
      i < |mi| && k < |mi| && mi[i].child == mi[k].child ==> i == k
    }

    /** The instructions are sorted, list every vertex once, and the partitions tile them. */
    ghost predicate Valid() {
      && Shaped() && Indexed()
      && (forall t: nat, u: nat :: Rises(t, u)) && (forall t: nat, k: nat :: Owns(t, k))
      && (forall i: nat, k: nat :: InOrder(i, k)) && (forall i: nat, k: nat :: Distinct(i, k))
    }

    function N(): nat { |mi| }

    function Root(k: nat): nat
      requires k < |mi|
    {
      mi[k].root
    }

    /** First and last position of the component at position k. */
    function First(k: nat): nat
      requires k < |mi|
    {
      FirstOf(mi, k)
    }

    function Last(k: nat): nat
      requires k < |mi|
    {
      LastOf(mi, k)
    }

    /** The threads whose partitions hold the ends of the component at k. */
    function Head(k: nat): nat
      requires |j.owner| == |mi| && k < N()
    {
      j.owner[First(k)]
    }

    function Tail(k: nat): nat
      requires |j.owner| == |mi| && k < N()
    {
      j.owner[Last(k)]
    }

    /** The vertices at a set of positions. */
    ghost function KidsAt(ks: set<nat>): set<nat> {
      set k | k in ks && k < N() :: mi[k].child
    }

    /** The vertices at positions a..b. */
    ghost function Kids(a: nat, b: nat): set<nat>
      requires a <= b <= N()
    {
      KidsAt(Range(a, b))
    }

    ghost function XorOf(c: set<nat>): (r: seq<Bucket>)
      requires p.Valid()
      ensures |r| == p.NumBuckets()
      ensures forall i: nat | i < |r| :: r[i] == Sum(c, Column(vs, i))
    {
      Xored(p, vs, c)
    }

    /** What sampling the component at k must answer, whoever does it and whenever. */
    ghost function Expected(k: nat): Outcome
      requires p.Valid() && k < N()
    {
      Answer(p, vs, round, Group(mi, Root(k)))
    }

    /** sk accumulates exactly the sketches of c, as far as this round looks at them. */
    ghost predicate Holds(sk: SketchVal, c: set<nat>)
      requires p.Valid()
    {
      && Agree(p, round, sk.bks, XorOf(c))
      && sk.idx == if c == {} then 0 else if round < p.numSamples then round else p.numSamples
    }
  }

  /** A configuration is valid when its division and its instructions are. */
  lemma CfgValid(c: Cfg)
    requires c.p.Valid() && c.j.Valid() && |c.mi| == c.j.N() == |c.vs|
    requires Sorted(c.mi) && M.Permutation(c.mi)
    requires forall k: nat | k < |c.mi| :: c.j.child[k] == c.mi[k].child
    requires forall v: nat | v < |c.vs| :: |c.vs[v]| == c.p.NumBuckets()
    ensures c.Valid()
  {
    forall t: nat | t < |c.j.lo|
      ensures c.j.lo[t] <= |c.mi|
    {
      assert t < |c.j.lo| - 1 ==> c.j.lo[t] < c.j.lo[|c.j.lo| - 1];
    }
  }

  lemma SameBlock(c: Cfg, k: nat, m: nat)
    requires c.Valid() && k < c.N() && m < c.N() && c.Root(k) == c.Root(m)
    ensures c.First(k) == c.First(m) && c.Last(k) == c.Last(m)
    ensures c.First(k) <= m <= c.Last(k)
  {
    InBlock(c, k, m);
    InBlock(c, m, k);
  }

  lemma InBlock(c: Cfg, k: nat, m: nat)
    requires c.Valid() && k < c.N() && m < c.N() && c.Root(k) == c.Root(m)
    ensures c.First(k) <= m <= c.Last(k)
  {
    var f, l := c.First(k), c.Last(k);
    if m < f {
      BlockLeft(c, m, f);
    }
    if l < m {
      BlockRight(c, l, m);
    }
  }

  lemma BlockLeft(c: Cfg, m: nat, f: nat)
    requires c.Valid() && m < f < c.N() && c.Root(f - 1) != c.Root(f)
    ensures c.Root(m) < c.Root(f)
  {
    assert c.InOrder(m, f - 1) && c.InOrder(f - 1, f);
  }

  lemma BlockRight(c: Cfg, l: nat, m: nat)
    requires c.Valid() && l < m < c.N() && c.Root(l) != c.Root(l + 1)
    ensures c.Root(l) < c.Root(m)
  {
    assert c.InOrder(l + 1, m) && c.InOrder(l, l + 1);
  }

  lemma OwnerIs(c: Cfg, t: nat, k: nat)
    requires c.Valid() && t < c.j.Threads() && c.j.lo[t] <= k < c.j.lo[t + 1]
    ensures k < c.N() && c.j.owner[k] == t
  {
    assert c.Owns(t, k);
  }

  lemma OwnerMono(c: Cfg, a: nat, b: nat)
    requires c.Valid() && a <= b < c.N()
    ensures c.j.owner[a] <= c.j.owner[b] && c.j.owner[b] < c.j.Threads()
  {
    assert c.Rises(c.j.owner[b] + 1, c.j.owner[a]);
  }

  lemma OwnerBounds(c: Cfg, t: nat)
    requires c.Valid() && t < c.j.Threads()
    ensures c.j.lo[t] < c.j.lo[t + 1] <= c.N() && c.j.owner[c.j.lo[t]] == t && c.j.owner[c.j.lo[t + 1] - 1] == t
  {
    assert c.Rises(t, t + 1) && c.Rises(t + 1, c.j.Threads());
    assert c.Owns(t, c.j.lo[t]) && c.Owns(t, c.j.lo[t + 1] - 1);
  }

  /** base..i is everything of one component that partition t holds. */
  ghost predicate Run(c: Cfg, t: nat, base: nat, i: nat)
    requires c.Indexed() && t < c.j.Threads()
  {
    && c.j.lo[t] <= base < i <= c.j.lo[t + 1]
    && (forall k | base <= k < i :: c.Root(k) == c.Root(base))
    && (base == c.j.lo[t] || c.Root(base - 1) != c.Root(base))
    && (i == c.j.lo[t + 1] || c.Root(i) != c.Root(base))
  }

  predicate FromLeft(c: Cfg, base: nat)
    requires base < |c.mi|
  {
    base > 0 && c.mi[base - 1].root == c.mi[base].root
  }

  predicate ExitsRight(c: Cfg, i: nat)
    requires 0 < i <= |c.mi|
  {
    i < |c.mi| && c.mi[i - 1].root == c.mi[i].root
  }

  lemma RunStarts(c: Cfg, t: nat, base: nat, i: nat)
    requires c.Valid() && t < c.j.Threads() && Run(c, t, base, i)
    ensures i <= c.N() && c.j.owner[base] == t
    ensures FromLeft(c, base) <==> c.Head(base) < t
    ensures !FromLeft(c, base) ==> c.First(base) == base && c.Head(base) == t
    ensures FromLeft(c, base) ==> base == c.j.lo[t]
  {
    OwnerBounds(c, t);
    OwnerIs(c, t, base);
    var f := c.First(base);
    if FromLeft(c, base) {
      SameBlock(c, base, base - 1);
      OwnerMono(c, f, base - 1);
      OwnerMono(c, base - 1, base);
      assert c.j.lo[c.j.owner[base - 1]] <= base - 1;
    }
  }

  lemma RunStops(c: Cfg, t: nat, base: nat, i: nat)
    requires c.Valid() && t < c.j.Threads() && Run(c, t, base, i)
    ensures i <= c.N() && c.j.owner[i - 1] == t
    ensures ExitsRight(c, i) <==> c.Tail(base) > t
    ensures !ExitsRight(c, i) ==> c.Last(base) == i - 1 && c.Tail(base) == t
    ensures ExitsRight(c, i) ==> i == c.j.lo[t + 1]
  {
    OwnerBounds(c, t);
    var l := c.Last(base);
    OwnerIs(c, t, i - 1);
    assert c.Root(i - 1) == c.Root(base);
    SameBlock(c, base, i - 1);
    if ExitsRight(c, i) {
      SameBlock(c, base, i);
      OwnerMono(c, i, l);
      OwnerMono(c, i - 1, i);
      assert i < c.j.lo[c.j.owner[i] + 1];
    }
  }

  /** Where the component of a run begins and ends. */
  lemma RunEnds(c: Cfg, t: nat, base: nat, i: nat)
    requires c.Valid() && t < c.j.Threads() && Run(c, t, base, i)
    ensures i <= c.N()
    ensures FromLeft(c, base) <==> c.Head(base) < t
    ensures !FromLeft(c, base) ==> c.First(base) == base && c.Head(base) == t
    ensures FromLeft(c, base) ==> base == c.j.lo[t]
    ensures ExitsRight(c, i) <==> c.Tail(base) > t
    ensures !ExitsRight(c, i) ==> c.Last(base) == i - 1 && c.Tail(base) == t
    ensures ExitsRight(c, i) ==> i == c.j.lo[t + 1]
    ensures c.Head(base) <= t <= c.Tail(base)
  {
    RunStarts(c, t, base, i);
    RunStops(c, t, base, i);
  }

  /** Slot g collects a component that enters partition g from the left and ends in it. */
  predicate IsSlot(c: Cfg, g: nat)
    requires g < |c.j.lo|
  {
    && c.j.lo[g] < |c.mi| && FromLeft(c, c.j.lo[g])
    && g + 1 < |c.j.lo| && LastOf(c.mi, c.j.lo[g]) < c.j.lo[g + 1]
  }

  /** The first thread that contributes to slot g. */
  ghost function HeadOf(c: Cfg, g: nat): nat
    requires c.Indexed() && g < c.j.Threads() && IsSlot(c, g)
  {
    c.Head(c.j.lo[g])
  }

  /** Where the component of slot g begins in partition t. */
  ghost function Portion(c: Cfg, g: nat, t: nat): nat
    requires c.Indexed() && g < c.j.Threads() && IsSlot(c, g) && t < c.j.Threads()
  {
    var f := c.First(c.j.lo[g]);
    if f < c.j.lo[t] then c.j.lo[t] else f
  }

  lemma PortionInside(c: Cfg, g: nat, t: nat)
    requires c.Valid() && g < c.j.Threads() && IsSlot(c, g) && HeadOf(c, g) <= t <= g
    ensures HeadOf(c, g) < g && c.Tail(c.j.lo[g]) == g
    ensures c.j.lo[t] <= Portion(c, g, t) < c.j.lo[t + 1] <= c.N()
    ensures c.Root(Portion(c, g, t)) == c.Root(c.j.lo[g])
  {
    var s := c.j.lo[g];
    var f, l := c.First(s), c.Last(s);
    OwnerBounds(c, g);
    OwnerBounds(c, t);
    SameBlock(c, s, s - 1);
    OwnerMono(c, f, s - 1);
    OwnerMono(c, s - 1, s);
    assert c.j.lo[c.j.owner[s - 1]] <= s - 1;
    OwnerIs(c, g, l);
    assert c.Rises(t, g) && c.Rises(HeadOf(c, g) + 1, t);
  }

  /** The run of a spanning component belongs to the slot of its last thread. */
  lemma RunSlot(c: Cfg, t: nat, base: nat, i: nat)
    requires c.Valid() && t < c.j.Threads() && Run(c, t, base, i) && c.Head(base) < c.Tail(base)
    ensures var g := c.Tail(base);
      g < c.j.Threads() && IsSlot(c, g) && c.Root(c.j.lo[g]) == c.Root(base) &&
      HeadOf(c, g) == c.Head(base) <= t <= g && Portion(c, g, t) == base
  {
    RunEnds(c, t, base, i);
    var g := c.Tail(base);
    var f, l := c.First(base), c.Last(base);
    OwnerBounds(c, g);
    var s := c.j.lo[g];
    assert f < s by {
      if s <= f {
        OwnerMono(c, s, f);
      }
    }
    assert c.Root(s) == c.Root(base) && c.Root(s - 1) == c.Root(base);
    SameBlock(c, base, s);
  }

  /** The block of a position is the group of its root. */
  lemma BlockIsGroup(c: Cfg, k: nat)
    requires c.Valid() && k < c.N()
    ensures c.Kids(c.First(k), c.Last(k) + 1) == Group(c.mi, c.Root(k))
  {
    forall m: nat | m < c.N()
      ensures m in Range(c.First(k), c.Last(k) + 1) <==> m in Range(0, |c.mi|) && c.mi[m].root == c.Root(k)
    {
      if c.Root(m) == c.Root(k) {
        SameBlock(c, k, m);
      }
    }
  }

  // Contents

  lemma KidsUnion(c: Cfg, x: set<nat>, y: set<nat>)
    ensures c.KidsAt(x + y) == c.KidsAt(x) + c.KidsAt(y)
  {
  }

  lemma SamePlace(c: Cfg, k: nat, m: nat)
    requires c.Valid() && k < c.N() && m < c.N() && c.mi[k].child == c.mi[m].child
    ensures k == m
  {
    assert c.Distinct(k, m);
  }

  lemma KidsDisjoint(c: Cfg, x: set<nat>, y: set<nat>)
    requires c.Valid() && x !! y
    ensures c.KidsAt(x) !! c.KidsAt(y)
  {
    forall v | v in c.KidsAt(x)
      ensures v !in c.KidsAt(y)
    {
      var k :| k in x && k < c.N() && c.mi[k].child == v;
      if v in c.KidsAt(y) {
        var m :| m in y && m < c.N() && c.mi[m].child == v;
        SamePlace(c, k, m);
      }
    }
  }

  lemma KidsPresent(c: Cfg, x: set<nat>, k: nat)
    requires k in x && k < c.N()
    ensures c.mi[k].child in c.KidsAt(x)
  {
  }

  lemma HoldsNothing(c: Cfg)
    requires c.Valid()
    ensures c.Holds(SketchVal(Zeros(c.p), 0), {})
  {
  }

  /** Range-merging the sketches of other vertices adds exactly them. */
  lemma HoldsMerge(c: Cfg, a: SketchVal, b: seq<Bucket>, x: set<nat>, y: set<nat>)
    requires c.Valid() && c.Holds(a, x) && Agree(c.p, c.round, b, c.XorOf(y)) && x !! y && y != {}
    ensures c.Holds(RangeMerged(c.p, a, b, c.round, 1), x + y)
  {
    var r := RangeMerged(c.p, a, b, c.round, 1);
    if c.round < c.p.numSamples {
      forall i: nat | i < |r.bks| && c.p.Relevant(c.round, i)
        ensures r.bks[i] == c.XorOf(x + y)[i]
      {
        HoldsBucket(c, a, b, x, y, i);
      }
    }
  }

  lemma HoldsBucket(c: Cfg, a: SketchVal, b: seq<Bucket>, x: set<nat>, y: set<nat>, i: nat)
    requires c.p.Valid() && |a.bks| == |b| == c.p.NumBuckets() && c.round < c.p.numSamples && x !! y
    requires i < |b| && c.p.Relevant(c.round, i) && a.bks[i] == c.XorOf(x)[i] && b[i] == c.XorOf(y)[i]
    ensures RangeMerged(c.p, a, b, c.round, 1).bks[i] == c.XorOf(x + y)[i]
  {
    SumUnion(x, y, Column(c.vs, i));
  }

  lemma XoredAlone(p: Params, vs: seq<seq<Bucket>>, v: nat)
    requires p.Valid() && v < |vs| && |vs[v]| == p.NumBuckets()
    ensures Xored(p, vs, {v}) == vs[v]
  {
    forall i: nat | i < p.NumBuckets()
      ensures Xored(p, vs, {v})[i] == vs[v][i]
    {
      SumSingleton(v, Column(vs, i));
    }
  }

  lemma HoldsVertex(c: Cfg, a: SketchVal, base: nat, i: nat)
    requires c.Valid() && base <= i < c.N() && c.Holds(a, c.Kids(base, i))
    ensures c.mi[i].child < |c.vs|
    ensures c.Holds(RangeMerged(c.p, a, c.vs[c.mi[i].child], c.round, 1), c.Kids(base, i + 1))
  {
    var v := c.mi[i].child;
    XoredAlone(c.p, c.vs, v);
    KidsUnion(c, Range(base, i), {i});
    KidsDisjoint(c, Range(base, i), {i});
    assert Range(base, i + 1) == Range(base, i) + {i};
    assert c.KidsAt({i}) == {v};
    HoldsMerge(c, a, c.vs[v], c.Kids(base, i), {v});
  }

  /** A sketch holding a whole component answers as expected. */
  lemma HoldsSamples(c: Cfg, sk: SketchVal, k: nat)
    requires c.Valid() && k < c.N() && c.Holds(sk, c.Kids(c.First(k), c.Last(k) + 1))
    ensures Sampled(c.p, sk) == c.Expected(k)
  {
    BlockIsGroup(c, k);
    KidsPresent(c, Range(c.First(k), c.Last(k) + 1), k);
    SampleAgrees(c.p, c.round, sk.bks, c.XorOf(c.Kids(c.First(k), c.Last(k) + 1)));
  }
}
