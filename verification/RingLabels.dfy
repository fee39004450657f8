// What racing labels make of the chains that round 0 has grown on a ring
// (src/cc_sketch_alg.cpp, create_merge_instructions).

module RingLabels {
  import opened Counting
  import opened Pairing
  import opened Graphs
  import opened Buckets
  import opened DsuSpec
  import opened DsuFindRace
  import opened SketchSpec
  import opened Partition
  import opened Jobs
  import opened RoundSpec
  import opened Cuts
  import opened Rings
  import opened RingStart
  import opened SplitLabels
  import G = Gather
  import GR = GatherRuns
  import M = MergeInstructions
  import Z = RoundZero

  // The chains

  /** The top of the chain the i-th vertex is on. */
  function Top(len: nat, i: nat): (k: nat)
    ensures i < len && len > 6 ==> k < len
  {
    if i <= 5 then 5 else if len == 12 && i <= 11 then 6 else i
  }

  lemma {:induction false} ChainTop(c: Ring, d: Dsu, i: nat)
    requires c.Valid() && Grown(c, d, |c.at|) && i < |c.at|
    ensures d.Root(c.at[i]) == c.at[Top(|c.at|, i)]
    decreases if i <= 5 then 5 - i else i
  {
    var u := Up(|c.at|, i);
    assert d.parent[c.at[i]] == c.at[u];
    if u != i {
      ChainTop(c, d, u);
    }
  }

  /** The sets of d are the chains, and all other vertices are alone. */
  ghost predicate Chains(c: Ring, d: Dsu)
    requires c.Valid()
  {
    && d.Valid() && d.Size() == c.n && (forall i: nat | i < |c.at| :: d.Root(c.at[i]) == c.at[Top(|c.at|, i)])
    && forall x: nat | x < c.n && x !in c.at :: d.Root(x) == x
  }

  lemma GrownChains(c: Ring, d: Dsu, e: Dsu)
    requires c.Valid() && Grown(c, d, |c.at|) && SameRoots(d, e)
    ensures Chains(c, e)
  {
    forall i: nat | i < |c.at|
      ensures e.Root(c.at[i]) == c.at[Top(|c.at|, i)]
    {
      ChainTop(c, d, i);
    }
    forall x: nat | x < c.n && x !in c.at
      ensures e.Root(x) == x
    {
      assert d.parent[x] == x;
    }
  }

  /** The vertices at the lower ends of the chains are more than four links below their roots. */
  lemma ChainEnds(c: Ring, d: Dsu)
    requires c.Valid() && Grown(c, d, |c.at|)
    ensures Grand(d, c.at[0]) == c.at[2] && Grand(d, c.at[2]) == c.at[4] && !d.IsRoot(c.at[4])
    ensures |c.at| == 12 ==> Grand(d, c.at[11]) == c.at[9] && Grand(d, c.at[9]) == c.at[7] && !d.IsRoot(c.at[7])
  {
    forall i: nat | i < |c.at|
      ensures d.parent[c.at[i]] == c.at[Up(|c.at|, i)]
    {
      assert d.parent[c.at[i]] == Parent(c, i, |c.at|);
    }
    assert d.parent[c.at[0]] == c.at[1] && d.parent[c.at[1]] == c.at[2] && d.parent[c.at[2]] == c.at[3];
    assert d.parent[c.at[3]] == c.at[4] && d.parent[c.at[4]] == c.at[5];
  }

  // The labels

  /** The label of the i-th vertex: its top, but four links up for the lower ends. */
  function LabelIx(len: nat, i: nat): nat {
    if i == 0 then 4 else if len == 12 && i == 11 then 7 else Top(len, i)
  }

  ghost predicate Labelling(c: Ring, lab: seq<nat>)
    requires c.Valid()
  {
    && |lab| == c.n && (forall i: nat | i < |c.at| :: lab[c.at[i]] == c.at[LabelIx(|c.at|, i)])
    && forall x: nat | x < c.n && x !in c.at :: lab[x] == x
  }

  function FirstJob(n: nat, threads: nat): (j: Job)
    requires 1 <= threads <= n
    ensures j.Valid() && j.N() == n && j.Threads() == threads && |j.lo| == threads + 1
    ensures forall k: nat | k < n :: j.child[k] == k
    ensures forall t: nat | t <= threads :: j.lo[t] == Start(n, t, threads)
  {
    MakeJobValid(M.Children(Z.Identity(n)), threads);
    MakeJob(M.Children(Z.Identity(n)), threads)
  }

  /** The ring is laid out so that the threads race at the lower ends of its chains. */
  ghost predicate Seated(c: Ring, threads: nat) {
    && c.Valid() && 2 <= threads <= c.n && c.at[0] == 0 && c.at[2] == Start(c.n, 1, threads)
    && (|c.at| == 12 ==> exists w: nat :: Seats(FirstJob(c.n, threads), w, c.at[11], c.at[9]))
  }

  lemma OneStacked(c: Ring, d: Dsu, threads: nat)
    requires Seated(c, threads) && Grown(c, d, |c.at|)
    ensures var j := FirstJob(c.n, threads); Stacked(j, d, 0, j.lo[1]) && Grand(d, j.child[j.lo[1]]) == c.at[4]
    ensures forall k: nat | k < c.n :: FirstJob(c.n, threads).child[k] < d.Size()
  {
    ChainEnds(c, d);
  }

  lemma BothStacked(c: Ring, d: Dsu, threads: nat, w: nat)
    requires Seated(c, threads) && Grown(c, d, |c.at|) && |c.at| == 12
    requires Seats(FirstJob(c.n, threads), w, c.at[11], c.at[9])
    ensures Staged(FirstJob(c.n, threads), d, w, c.at[11], c.at[9])
    ensures Grand(d, FirstJob(c.n, threads).child[c.at[9]]) == c.at[7]
  {
    OneStacked(c, d, threads);
    ChainEnds(c, d);
    ChainTop(c, d, 0);
    ChainTop(c, d, 11);
  }

  /** The labels that the races get wrong. */
  function Odds(c: Ring): Odd
    requires c.Valid()
  {
    if |c.at| == 8 then Also(NONE_ODD, c.at[0], c.at[4]) else Also(Also(NONE_ODD, c.at[0], c.at[4]), c.at[11], c.at[7])
  }

  lemma OddsOn(c: Ring, i: nat)
    requires c.Valid() && i < |c.at|
    ensures c.at[i] in Odds(c) <==> LabelIx(|c.at|, i) != Top(|c.at|, i)
    ensures c.at[i] in Odds(c) ==> Odds(c)[c.at[i]] == c.at[LabelIx(|c.at|, i)]
  {
    assert c.at[i] == c.at[0] ==> i == 0;
    assert |c.at| == 12 && c.at[i] == c.at[11] ==> i == 11;
  }

  lemma OddsOff(c: Ring, x: nat)
    requires c.Valid() && x !in c.at
    ensures x !in Odds(c)
  {
    assert c.at[0] in c.at && (|c.at| == 12 ==> c.at[11] in c.at);
  }

  lemma LabelsFrom(c: Ring, d: Dsu, threads: nat, lab: seq<nat>)
    requires Seated(c, threads) && Grown(c, d, |c.at|) && FiledBut(FirstJob(c.n, threads), d, lab, Odds(c))
    ensures Labelling(c, lab)
  {
    var j := FirstJob(c.n, threads);
    forall i: nat | i < |c.at|
      ensures lab[c.at[i]] == c.at[LabelIx(|c.at|, i)]
    {
      assert j.child[c.at[i]] == c.at[i];
      ChainTop(c, d, i);
      OddsOn(c, i);
    }
    forall x: nat | x < c.n && x !in c.at
      ensures lab[x] == x
    {
      assert j.child[x] == x;
      OddsOff(c, x);
      assert d.parent[x] == x;
    }
  }

  /** Some schedule of the labelling phase gives these labels. */
  lemma RacedLabels(c: Ring, d: Dsu, threads: nat) returns (s: G.State)
    requires Seated(c, threads) && Grown(c, d, |c.at|)
    ensures GR.Result(FirstJob(c.n, threads), d, s) && Labelling(c, s.lab)
  {
    var j := FirstJob(c.n, threads);
    OneStacked(c, d, threads);
    if |c.at| == 8 {
      s := WrongInOneSet(j, d);
    } else {
      var w: nat :| Seats(j, w, c.at[11], c.at[9]);
      BothStacked(c, d, threads, w);
      s := WrongInTwoSets(j, d, w, c.at[11], c.at[9]);
    }
    LabelsFrom(c, d, threads, s.lab);
  }

  predicate FiledBy(mi: seq<MergeInstr>, lab: seq<nat>) {
    |mi| == |lab| && forall a: nat | a < |mi| :: mi[a].child < |lab| && mi[a].root == lab[mi[a].child]
  }

  /** And some run of the whole of create_merge_instructions files the vertices under them. */
  lemma RacedInstructions(c: Ring, d: Dsu, threads: nat) returns (e: Dsu, mi: seq<MergeInstr>, lab: seq<nat>)
    requires Seated(c, threads) && Grown(c, d, |c.at|)
    ensures Labelling(c, lab) && FiledBy(mi, lab) && M.Outcome(d, Z.Identity(c.n), threads, e, mi)
  {
    var s := RacedLabels(c, d, threads);
    var j := FirstJob(c.n, threads);
    mi := M.Sorts(j, d, s);
    e, lab := s.d, s.lab;
    assert M.FromLabels(d, Z.Identity(c.n), threads, s, mi);
    FilesFiled(mi, j.child, lab);
  }

  lemma FilesFiled(mi: seq<MergeInstr>, child: seq<nat>, lab: seq<nat>)
    requires |mi| == |child| == |lab| && (forall k: nat | k < |child| :: child[k] == k)
    requires forall a: nat | a < |mi| :: M.Files(child, lab, mi[a])
    ensures FiledBy(mi, lab)
  {
    forall a: nat | a < |mi|
      ensures mi[a].child < |lab| && mi[a].root == lab[mi[a].child]
    {
      assert M.Files(child, lab, mi[a]);
    }
  }

  // The groups

  /** The vertices with one label. */
  function Having(lab: seq<nat>, l: nat): set<nat> {
    set v | v in Range(0, |lab|) && lab[v] == l
  }

  lemma GroupHaving(mi: seq<MergeInstr>, lab: seq<nat>, l: nat)
    requires FiledBy(mi, lab) && M.Permutation(mi)
    ensures Group(mi, l) == Having(lab, l)
  {
    forall v | v in Having(lab, l)
      ensures v in Group(mi, l)
    {
      var a := M.PlaceOf(mi, v);
      assert a in Range(0, |mi|);
    }
  }

  /** The arc of the ring that the i-th vertex's group covers. */
  function ArcLo(len: nat, i: nat): nat {
    if i == 0 then 0 else if i <= 5 then 1 else if len == 12 then if i == 11 then 11 else 6 else i
  }

  function ArcHi(len: nat, i: nat): nat {
    if i == 0 then 1 else if i <= 5 then 6 else if len == 12 then if i == 11 then 12 else 11 else i + 1
  }

  lemma HavingArc(c: Ring, lab: seq<nat>, i: nat)
    requires c.Valid() && Labelling(c, lab) && i < |c.at|
    ensures Arc(c, Having(lab, lab[c.at[i]]), ArcLo(|c.at|, i), ArcHi(|c.at|, i))
  {
    forall k: nat | k < |c.at|
      ensures c.at[k] in Having(lab, lab[c.at[i]]) <==> ArcLo(|c.at|, i) <= k < ArcHi(|c.at|, i)
    {
      assert c.at[LabelIx(|c.at|, k)] == c.at[LabelIx(|c.at|, i)] ==> LabelIx(|c.at|, k) == LabelIx(|c.at|, i);
    }
  }

  /** A vertex off the ring shares its label with none on it. */
  lemma HavingOff(c: Ring, lab: seq<nat>, x: nat)
    requires c.Valid() && Labelling(c, lab) && x < c.n && x !in c.at
    ensures OffRing(c, Having(lab, lab[x]))
  {
    forall i: nat | i < |c.at|
      ensures c.at[i] !in Having(lab, lab[x])
    {
      assert c.at[LabelIx(|c.at|, i)] in c.at;
    }
  }

  /** What round 1 answers to the group of the i-th vertex. */
  function LaterSide(len: nat, i: nat): (k: nat)
    ensures (len == 8 || len == 12) && i < len ==> k < len
  {
    if i <= 5 then 0 else if len == 12 then 10 else 6
  }

  /** Round 1 finds x for the group of some vertex of the ring. */
  ghost predicate LaterFinds(c: Ring, x: Edge)
    requires c.Valid()
  {
    exists i: nat :: i < |c.at| && x == c.Side(LaterSide(|c.at|, i))
  }

  lemma LaterSays(c: Ring, i: nat)
    requires c.Valid() && i < |c.at|
    ensures var a, b := ArcLo(|c.at|, i), ArcHi(|c.at|, i);
      a < b <= |c.at| && ArcSays(c, 1, a, b) == GoodSample(IdAt(c, LaterSide(|c.at|, i)))
  {
  }

  /** The side that round 1 samples for vertex x of the ring. */
  ghost predicate LaterFor(c: Ring, o: Outcome, x: nat)
    requires c.Valid()
  {
    exists i: nat :: i < |c.at| && c.at[i] == x && o == GoodSample(IdAt(c, LaterSide(|c.at|, i)))
  }

  /** Round 1's sample of vertex x's group is honest, and known. */
  lemma LaterAnswer(c: Ring, p: Params, vs: seq<seq<Bucket>>, lab: seq<nat>, x: nat)
    requires Hashed(c, p, vs) && Labelling(c, lab) && x < c.n && p.numSamples > 1
    ensures Simple(c.Net(), NODE_LIMIT) && SoundCut(p, c.Net(), Having(lab, lab[x]))
    ensures var o := Answer(p, vs, 1, Having(lab, lab[x]));
      if x in c.at then LaterFor(c, o, x) else o == ZeroSample
  {
    if x in c.at {
      var i: nat :| i < |c.at| && c.at[i] == x;
      HavingArc(c, lab, i);
      ArcAnswer(c, p, vs, Having(lab, lab[x]), ArcLo(|c.at|, i), ArcHi(|c.at|, i), 1);
      LaterSays(c, i);
    } else {
      HavingOff(c, lab, x);
      OffAnswer(c, p, vs, Having(lab, lab[x]), 1);
    }
  }
}
