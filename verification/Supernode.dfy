// What a thread does with the sample of a supernode (src/cc_sketch_alg.cpp,
// sample_supernode), for all threads of one Boruvka round at once.

module Supernode {
  import opened Counting
  import opened Pairing
  import opened Graphs
  import opened DsuSpec
  import opened DsuConcurrent
  import opened SketchSpec

  /**
   * A thread is between samples, merges the endpoints of a sampled edge, inserts a merged
   * edge into the spanning forest, or reports that the round modified something.
   */
  datatype Sup = Idle | Merging(e: Edge, m: Merge) | Inserting(e: Edge) | Reporting

  /**
   * d, forest and modified are the shared variables of a round. The others only record
   * what happened: linked, every edge whose swap succeeded so far; asked, every edge a
   * good sample returned; failed, whether a sample failed; wild, whether a good sample
   * decoded to a vertex that does not exist.
   */
  datatype Sys = Sys(d: Dsu, forest: Graph, linked: Graph, asked: set<Edge>,
                     modified: bool, failed: bool, wild: bool, sups: seq<Sup>)

  /** The thread has its sample in hand. */
  function Begin(s: Sys, t: nat, o: Outcome): Sys
    requires t < |s.sups|
  {
    match o
    case ZeroSample => s
    case OutOfSamples => s
    case FailSample => s.(failed := true, sups := s.sups[t := Reporting])
    case GoodSample(idx) =>
      var e := InvConcatPairing(idx);
      if e.src < s.d.Size() && e.dst < s.d.Size() then
        s.(asked := s.asked + {e}, sups := s.sups[t := Merging(e, Loop(e.src, e.dst))])
      else s.(wild := true)
  }

  /** One atomic step of a busy thread. */
  function Advance(s: Sys, t: nat, c: Choice): Sys
    requires t < |s.sups| && s.d.Valid()
    requires s.sups[t].Merging? ==> MergeInRange(s.d.Size(), s.sups[t].m)
  {
    match s.sups[t]
    case Idle => s
    case Merging(e, m) =>
      var (d, k) := MergeStep(s.d, m, c);
      if Linked(m, k) then s.(d := d, linked := s.linked + {Norm(e)}, sups := s.sups[t := Inserting(e)])
      else if k.Finished? then s.(d := d, sups := s.sups[t := Idle])
      else s.(d := d, sups := s.sups[t := Merging(e, k)])
    case Inserting(e) => s.(forest := s.forest + {Norm(e)}, sups := s.sups[t := Reporting])
    case Reporting => s.(modified := true, sups := s.sups[t := Idle])
  }

  /** f is a forest that generates the partition of d, one edge per set lost. */
  ghost predicate ForestOf(d: Dsu, f: Graph) {
    Spans(d, f) && Acyclic(f) && |f| + |d.Roots()| == d.Size()
  }

  ghost predicate SupInv(s: Sys, linked0: Graph, p: Sup)
    requires s.d.Valid()
  {
    match p
    case Idle => true
    case Merging(e, m) =>
      e.src < s.d.Size() && e.dst < s.d.Size() && e in s.asked && !m.Finished? &&
      MergeInRange(s.d.Size(), m) && MergeInv(s.d, e.src, e.dst, m)
    case Inserting(e) => Norm(e) in s.linked && s.linked != linked0
    case Reporting => s.linked != linked0 || s.failed
  }

  /** x is linked and its thread has yet to insert it. */
  ghost predicate Pending(s: Sys, x: Edge) {
    exists t: nat :: t < |s.sups| && s.sups[t].Inserting? && Norm(s.sups[t].e) == x
  }

  ghost predicate Asking(s: Sys, x: Edge) {
    exists t: nat :: t < |s.sups| && s.sups[t].Merging? && s.sups[t].e == x
  }

  /** A thread is about to set the modified flag. */
  ghost predicate WillReport(s: Sys) {
    exists t: nat :: t < |s.sups| && (s.sups[t].Inserting? || s.sups[t].Reporting?)
  }

  ghost predicate Answered(s: Sys, x: Edge)
    requires s.d.Valid()
  {
    x.src < s.d.Size() && x.dst < s.d.Size() && (s.d.SameSet(x.src, x.dst) || Asking(s, x))
  }

  /** A newly linked edge was answered by some sample. */
  ghost predicate Fresh(s: Sys, x: Edge) {
    exists e :: e in s.asked && Norm(e) == x
  }

  /** What every step of a round keeps, linked0 being the edges linked when it began. */
  ghost predicate SysInv(s: Sys, linked0: Graph) {
    && ForestOf(s.d, s.linked) && linked0 <= s.linked && s.forest <= s.linked
    && (forall t: nat | t < |s.sups| :: SupInv(s, linked0, s.sups[t]))
    && (forall x | x in s.linked && x !in s.forest :: Pending(s, x))
    && (forall x | x in s.linked && x !in linked0 :: Fresh(s, x))
    && (forall x | x in s.asked :: Answered(s, x))
    && (s.linked != linked0 || s.failed ==> s.modified || WillReport(s))
    && (s.modified ==> s.linked != linked0 || s.failed)
  }

  lemma LinkForest(d: Dsu, e: Dsu, f: Graph, edge: Edge)
    requires ForestOf(d, f) && edge.src < d.Size() && edge.dst < d.Size()
    requires !d.SameSet(edge.src, edge.dst) && Joined(d, e, edge.src, edge.dst)
    requires |e.Roots()| == |d.Roots()| - 1
    ensures ForestOf(e, f + {Norm(edge)}) && Norm(edge) !in f
  {
    var x := Norm(edge);
    JoinedElsewhere(d, e, edge.src, edge.dst, x.src, x.dst);
    if x in f {
      ConnEdge(f, x);
    }
    AcyclicAdd(f, x);
    JoinSpans(d, e, f, x);
    assert |f + {x}| == |f| + 1;
  }

  lemma SameRootsForest(d: Dsu, e: Dsu, f: Graph)
    requires ForestOf(d, f) && SameRoots(d, e)
    ensures ForestOf(e, f) && Evolves(d, e)
  {
    forall x: nat, y: nat | x < d.Size() && y < d.Size()
      ensures e.SameSet(x, y) <==> Connected(f, x, y)
    {
      assert d.SameSet(x, y) <==> Connected(f, x, y);
    }
    assert e.Roots() == d.Roots();
  }

  lemma OthersStable(s: Sys, r: Sys, linked0: Graph, t: nat, i: nat)
    requires SysInv(s, linked0) && Evolves(s.d, r.d) && s.linked <= r.linked && s.asked <= r.asked
    requires s.failed ==> r.failed
    requires t < |s.sups| == |r.sups| && i < |s.sups| && i != t && r.sups[i] == s.sups[i]
    ensures SupInv(r, linked0, r.sups[i])
  {
    assert SupInv(s, linked0, s.sups[i]);
    match s.sups[i]
    case Merging(e, m) => MergeInvStable(s.d, r.d, e.src, e.dst, m);
    case _ =>
  }

  lemma PendingElsewhere(s: Sys, r: Sys, t: nat, x: Edge)
    requires Pending(s, x) && t < |s.sups| == |r.sups| && forall i: nat | i < |s.sups| && i != t :: r.sups[i] == s.sups[i]
    requires s.sups[t].Inserting? ==> Norm(s.sups[t].e) != x || r.sups[t] == s.sups[t]
    ensures Pending(r, x)
  {
    var i: nat :| i < |s.sups| && s.sups[i].Inserting? && Norm(s.sups[i].e) == x;
    assert r.sups[i].Inserting? && Norm(r.sups[i].e) == x;
  }

  lemma AskingElsewhere(s: Sys, r: Sys, t: nat, x: Edge)
    requires Asking(s, x) && t < |s.sups| == |r.sups| && forall i: nat | i < |s.sups| && i != t :: r.sups[i] == s.sups[i]
    requires s.sups[t].Merging? ==> s.sups[t].e != x || (r.sups[t].Merging? && r.sups[t].e == x)
    ensures Asking(r, x)
  {
    var i: nat :| i < |s.sups| && s.sups[i].Merging? && s.sups[i].e == x;
    assert r.sups[i].Merging? && r.sups[i].e == x;
  }

  lemma WillReportElsewhere(s: Sys, r: Sys, t: nat)
    requires WillReport(s) && t < |s.sups| == |r.sups| && forall i: nat | i < |s.sups| && i != t :: r.sups[i] == s.sups[i]
    requires s.sups[t].Inserting? || s.sups[t].Reporting? ==> r.sups[t].Inserting? || r.sups[t].Reporting?
    ensures WillReport(r)
  {
    var i: nat :| i < |s.sups| && (s.sups[i].Inserting? || s.sups[i].Reporting?);
    assert r.sups[i].Inserting? || r.sups[i].Reporting?;
  }

  lemma FreshGrows(s: Sys, r: Sys, x: Edge)
    requires Fresh(s, x) && s.asked <= r.asked
    ensures Fresh(r, x)
  {
  }

  lemma BeginSups(s: Sys, linked0: Graph, t: nat, o: Outcome, i: nat)
    requires SysInv(s, linked0) && t < |s.sups| && s.sups[t].Idle? && i < |s.sups|
    ensures SupInv(Begin(s, t, o), linked0, Begin(s, t, o).sups[i])
  {
    var r := Begin(s, t, o);
    assert SupInv(s, linked0, s.sups[i]);
    if i == t && r.sups[t].Merging? {
      ParentUp(s.d, r.sups[t].e.src);
    }
  }

  lemma BeginAnswers(s: Sys, t: nat, o: Outcome, x: Edge)
    requires s.d.Valid() && t < |s.sups| && s.sups[t].Idle? && x in Begin(s, t, o).asked
    requires x in s.asked ==> Answered(s, x)
    ensures Answered(Begin(s, t, o), x)
  {
    var r := Begin(s, t, o);
    if x in s.asked {
      if Asking(s, x) {
        AskingElsewhere(s, r, t, x);
      }
    } else {
      assert r.sups[t].Merging? && r.sups[t].e == x;
    }
  }

  lemma BeginReports(s: Sys, t: nat, o: Outcome)
    requires t < |s.sups| && s.sups[t].Idle?
    ensures WillReport(s) || o.FailSample? ==> WillReport(Begin(s, t, o))
  {
    if WillReport(s) {
      WillReportElsewhere(s, Begin(s, t, o), t);
    }
    if o.FailSample? {
      assert Begin(s, t, o).sups[t].Reporting?;
    }
  }

  /** Taking a sample keeps the invariant. */
  lemma BeginKeeps(s: Sys, linked0: Graph, t: nat, o: Outcome)
    requires SysInv(s, linked0) && t < |s.sups| && s.sups[t].Idle?
    ensures SysInv(Begin(s, t, o), linked0)
  {
    var r := Begin(s, t, o);
    forall i: nat | i < |r.sups|
      ensures SupInv(r, linked0, r.sups[i])
    {
      BeginSups(s, linked0, t, o, i);
    }
    forall x | x in r.linked && x !in r.forest
      ensures Pending(r, x)
    {
      PendingElsewhere(s, r, t, x);
    }
    forall x | x in r.linked && x !in linked0
      ensures Fresh(r, x)
    {
      FreshGrows(s, r, x);
    }
    forall x | x in r.asked
      ensures Answered(r, x)
    {
      BeginAnswers(s, t, o, x);
    }
    BeginReports(s, t, o);
  }

  lemma MergingSame(s: Sys, linked0: Graph, t: nat, c: Choice)
    requires SysInv(s, linked0) && t < |s.sups| && s.sups[t].Merging? && MergeInRange(s.d.Size(), s.sups[t].m)
    requires !Linked(s.sups[t].m, MergeStep(s.d, s.sups[t].m, c).1)
    ensures var r := Advance(s, t, c);
      && ForestOf(r.d, r.linked) && Evolves(s.d, r.d) && SupInv(r, linked0, r.sups[t]) && r.linked == s.linked
  {
    assert SupInv(s, linked0, s.sups[t]);
    var Merging(e, m) := s.sups[t];
    MergeStepKeeps(s.d, e.src, e.dst, m, c);
    SameRootsForest(s.d, MergeStep(s.d, m, c).0, s.linked);
  }

  lemma MergingLinks(s: Sys, linked0: Graph, t: nat, c: Choice)
    requires SysInv(s, linked0) && t < |s.sups| && s.sups[t].Merging? && MergeInRange(s.d.Size(), s.sups[t].m)
    requires Linked(s.sups[t].m, MergeStep(s.d, s.sups[t].m, c).1)
    ensures var r := Advance(s, t, c);
      && ForestOf(r.d, r.linked) && Evolves(s.d, r.d) && r.sups[t] == Inserting(s.sups[t].e)
      && r.linked == s.linked + {Norm(s.sups[t].e)} && r.linked != s.linked
  {
    assert SupInv(s, linked0, s.sups[t]);
    var Merging(e, m) := s.sups[t];
    MergeStepKeeps(s.d, e.src, e.dst, m, c);
    LinkForest(s.d, MergeStep(s.d, m, c).0, s.linked, e);
  }

  lemma MergingForest(s: Sys, linked0: Graph, t: nat, c: Choice)
    requires SysInv(s, linked0) && t < |s.sups| && s.sups[t].Merging?
    ensures MergeInRange(s.d.Size(), s.sups[t].m)
    ensures var r := Advance(s, t, c);
      && ForestOf(r.d, r.linked) && Evolves(s.d, r.d) && SupInv(r, linked0, r.sups[t])
      && (r.linked == s.linked || (r.sups[t] == Inserting(s.sups[t].e) && r.linked == s.linked + {Norm(s.sups[t].e)} &&
                                  r.linked != s.linked))
  {
    assert SupInv(s, linked0, s.sups[t]);
    if Linked(s.sups[t].m, MergeStep(s.d, s.sups[t].m, c).1) {
      MergingLinks(s, linked0, t, c);
    } else {
      MergingSame(s, linked0, t, c);
    }
  }

  lemma MergingPending(s: Sys, linked0: Graph, t: nat, c: Choice)
    requires SysInv(s, linked0) && t < |s.sups| && s.sups[t].Merging? && MergeInRange(s.d.Size(), s.sups[t].m)
    ensures var r := Advance(s, t, c);
      (forall x | x in r.linked && x !in r.forest :: Pending(r, x)) &&
      (r.linked != linked0 || r.failed ==> r.modified || WillReport(r))
  {
    assert SupInv(s, linked0, s.sups[t]);
    var r := Advance(s, t, c);
    assert r.sups[t].Inserting? ==> WillReport(r);
    forall x | x in r.linked && x !in r.forest
      ensures Pending(r, x)
    {
      if x in s.linked {
        PendingElsewhere(s, r, t, x);
      }
    }
    if WillReport(s) {
      WillReportElsewhere(s, r, t);
    }
  }

  /** A step of a merge: a success is recorded as linked before it reaches the forest. */
  lemma MergingKeeps(s: Sys, linked0: Graph, t: nat, c: Choice)
    requires SysInv(s, linked0) && t < |s.sups| && s.sups[t].Merging?
    ensures MergeInRange(s.d.Size(), s.sups[t].m)
    ensures SysInv(Advance(s, t, c), linked0) && Evolves(s.d, Advance(s, t, c).d)
  {
    MergingForest(s, linked0, t, c);
    MergingSups(s, linked0, t, c);
    MergingPending(s, linked0, t, c);
    MergingFresh(s, linked0, t, c);
    forall x | x in Advance(s, t, c).asked
      ensures Answered(Advance(s, t, c), x)
    {
      MergingAnswers(s, linked0, t, c, x);
    }
  }

  lemma MergingSups(s: Sys, linked0: Graph, t: nat, c: Choice)
    requires SysInv(s, linked0) && t < |s.sups| && s.sups[t].Merging? && MergeInRange(s.d.Size(), s.sups[t].m)
    ensures var r := Advance(s, t, c);
      r.d.Valid() && |r.sups| == |s.sups| && forall i: nat | i < |r.sups| :: SupInv(r, linked0, r.sups[i])
  {
    MergingForest(s, linked0, t, c);
    var r := Advance(s, t, c);
    forall i: nat | i < |r.sups|
      ensures SupInv(r, linked0, r.sups[i])
    {
      if i != t {
        OthersStable(s, r, linked0, t, i);
      }
    }
  }

  lemma MergingFresh(s: Sys, linked0: Graph, t: nat, c: Choice)
    requires SysInv(s, linked0) && t < |s.sups| && s.sups[t].Merging? && MergeInRange(s.d.Size(), s.sups[t].m)
    ensures var r := Advance(s, t, c); forall x | x in r.linked && x !in linked0 :: Fresh(r, x)
  {
    assert SupInv(s, linked0, s.sups[t]);
    var r := Advance(s, t, c);
    forall x | x in r.linked && x !in linked0
      ensures Fresh(r, x)
    {
      if x in s.linked {
        FreshGrows(s, r, x);
      }
    }
  }

  lemma MergingAnswers(s: Sys, linked0: Graph, t: nat, c: Choice, x: Edge)
    requires SysInv(s, linked0) && t < |s.sups| && s.sups[t].Merging? && MergeInRange(s.d.Size(), s.sups[t].m)
    requires x in s.asked
    ensures Advance(s, t, c).d.Valid() && Answered(Advance(s, t, c), x)
  {
    assert SupInv(s, linked0, s.sups[t]) && Answered(s, x);
    var Merging(e, m) := s.sups[t];
    MergeStepKeeps(s.d, e.src, e.dst, m, c);
    AskedStays(s, Advance(s, t, c), t, x, MergeStep(s.d, m, c).1);
  }

  lemma AskedStays(s: Sys, r: Sys, t: nat, x: Edge, k: Merge)
    requires t < |s.sups| == |r.sups| && s.sups[t].Merging? && Evolves(s.d, r.d) && Answered(s, x)
    requires forall i: nat | i < |s.sups| && i != t :: r.sups[i] == s.sups[i]
    requires r.sups[t] == Merging(s.sups[t].e, k) ||
             var e := s.sups[t].e; e.src < r.d.Size() && e.dst < r.d.Size() && r.d.SameSet(e.src, e.dst)
    ensures Answered(r, x)
  {
    if s.d.SameSet(x.src, x.dst) {
      assert r.d.SameSet(x.src, x.dst);
    } else if x != s.sups[t].e || r.sups[t] == Merging(s.sups[t].e, k) {
      AskingElsewhere(s, r, t, x);
    }
  }

  /** Inserting an edge and raising the flag. */
  lemma ReportKeeps(s: Sys, linked0: Graph, t: nat, c: Choice)
    requires SysInv(s, linked0) && t < |s.sups| && (s.sups[t].Inserting? || s.sups[t].Reporting?)
    ensures SysInv(Advance(s, t, c), linked0) && Advance(s, t, c).d == s.d
  {
    assert SupInv(s, linked0, s.sups[t]);
    var r := Advance(s, t, c);
    forall i: nat | i < |r.sups|
      ensures SupInv(r, linked0, r.sups[i])
    {
      assert SupInv(s, linked0, s.sups[i]);
    }
    forall x | x in r.linked && x !in r.forest
      ensures Pending(r, x)
    {
      PendingElsewhere(s, r, t, x);
    }
    forall x | x in r.linked && x !in linked0
      ensures Fresh(r, x)
    {
      FreshGrows(s, r, x);
    }
    forall x | x in r.asked
      ensures Answered(r, x)
    {
      assert Answered(s, x);
      if Asking(s, x) {
        AskingElsewhere(s, r, t, x);
      }
    }
    if s.sups[t].Inserting? {
      assert r.sups[t].Reporting?;
    }
  }

  /** Every atomic step of every thread keeps the invariant, and sets only grow. */
  lemma AdvanceKeeps(s: Sys, linked0: Graph, t: nat, c: Choice)
    requires SysInv(s, linked0) && t < |s.sups| && !s.sups[t].Idle?
    ensures s.sups[t].Merging? ==> MergeInRange(s.d.Size(), s.sups[t].m)
    ensures SysInv(Advance(s, t, c), linked0) && Evolves(s.d, Advance(s, t, c).d)
  {
    if s.sups[t].Merging? {
      MergingKeeps(s, linked0, t, c);
    } else {
      ReportKeeps(s, linked0, t, c);
    }
  }

  function StartSys(d: Dsu, forest: Graph, threads: nat): Sys {
    Sys(d, forest, forest, {}, false, false, false, seq(threads, _ => Idle))
  }

  lemma StartKeeps(d: Dsu, forest: Graph, threads: nat)
    requires ForestOf(d, forest)
    ensures SysInv(StartSys(d, forest, threads), forest)
  {
  }

  /**
   * When every thread is idle again the forest is complete and made of sampled edges,
   * every sampled edge lies inside one set, and the flag says exactly whether something
   * was linked or failed.
   */
  lemma Quiescent(s: Sys, linked0: Graph)
    requires SysInv(s, linked0) && forall t: nat | t < |s.sups| :: s.sups[t].Idle?
    ensures s.forest == s.linked && ForestOf(s.d, s.forest)
    ensures linked0 <= s.forest && forall x | x in s.forest && x !in linked0 :: Fresh(s, x)
    ensures forall x | x in s.asked :: x.src < s.d.Size() && x.dst < s.d.Size() && s.d.SameSet(x.src, x.dst)
    ensures s.modified <==> s.forest != linked0 || s.failed
  {
    forall x | x in s.linked
      ensures x in s.forest
    {
      assert x !in s.forest ==> Pending(s, x);
    }
    forall x | x in s.asked
      ensures x.src < s.d.Size() && x.dst < s.d.Size() && s.d.SameSet(x.src, x.dst)
    {
      assert Answered(s, x);
    }
  }

  ghost function SupMeasure(d: Dsu, p: Sup): nat
    requires d.Valid() && (p.Merging? ==> MergeInRange(d.Size(), p.m))
  {
    match p
    case Idle => 0
    case Merging(_, m) => 4 + MergeMeasure(d, m)
    case Inserting(_) => 2
    case Reporting => 1
  }

  lemma AdvanceProgress(s: Sys, linked0: Graph, t: nat, c: Choice)
    requires SysInv(s, linked0) && t < |s.sups| && !s.sups[t].Idle? && !c.spurious
    requires s.sups[t].Merging? ==> MergeInRange(s.d.Size(), s.sups[t].m)
    requires SysInv(Advance(s, t, c), linked0)
    ensures var r := Advance(s, t, c);
      (r.sups[t].Merging? ==> MergeInRange(r.d.Size(), r.sups[t].m)) &&
      SupMeasure(r.d, r.sups[t]) < SupMeasure(s.d, s.sups[t])
  {
    assert SupInv(s, linked0, s.sups[t]);
    var r := Advance(s, t, c);
    assert SupInv(r, linked0, r.sups[t]);
    if s.sups[t].Merging? {
      MergeStepsBounded(s.d, s.sups[t].e.src, s.sups[t].e.dst, s.sups[t].m, c);
    }
  }

  lemma SupMeasureSame(d: Dsu, e: Dsu, p: Sup)
    requires d.Valid() && e.Valid() && d.prio == e.prio && (p.Merging? ==> MergeInRange(d.Size(), p.m))
    ensures SupMeasure(d, p) == SupMeasure(e, p)
  {
    if p.Merging? {
      MergeMeasureSame(d, e, p.m);
    }
  }

  lemma MergeMeasureSame(d: Dsu, e: Dsu, m: Merge)
    requires d.Valid() && e.Valid() && d.prio == e.prio && MergeInRange(d.Size(), m)
    ensures MergeMeasure(d, m) == MergeMeasure(e, m)
  {
    forall x: nat | x < d.Size()
      ensures d.Rank(x) == e.Rank(x)
    {
      RankSame(d, e, x);
    }
  }

  /** The steps each thread still takes to finish with its sample. */
  ghost function SupMeasures(s: Sys, linked0: Graph): (m: seq<nat>)
    requires SysInv(s, linked0)
    ensures |m| == |s.sups|
  {
    seq(|s.sups|, t requires 0 <= t < |s.sups| =>
      assert SupInv(s, linked0, s.sups[t]);
      SupMeasure(s.d, s.sups[t]))
  }

  lemma SupDrops(s: Sys, linked0: Graph, t: nat, c: Choice)
    requires SysInv(s, linked0) && t < |s.sups| && !s.sups[t].Idle? && !c.spurious
    requires s.sups[t].Merging? ==> MergeInRange(s.d.Size(), s.sups[t].m)
    requires SysInv(Advance(s, t, c), linked0)
    ensures Total(SupMeasures(Advance(s, t, c), linked0)) < Total(SupMeasures(s, linked0))
  {
    var r := Advance(s, t, c);
    AdvanceKeeps(s, linked0, t, c);
    AdvanceProgress(s, linked0, t, c);
    var a, b := SupMeasures(s, linked0), SupMeasures(r, linked0);
    forall u: nat | u < |a| && u != t
      ensures b[u] == a[u]
    {
      assert SupInv(s, linked0, s.sups[u]);
      SupMeasureSame(s.d, r.d, s.sups[u]);
    }
    assert b == a[t := b[t]];
    TotalUpdate(a, t, b[t]);
  }
}
