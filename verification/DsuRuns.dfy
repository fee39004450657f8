// Whole runs of the lock-free union-find: any number of threads, each performing any
// sequence of merge and find_root calls, interleaved at every atomic access.

module DsuRuns {
  import opened Counting
  import opened Pairing
  import opened Graphs
  import opened DsuSpec
  import opened DsuConcurrent

  datatype Task = Idle | Finding(x: nat, f: Find) | Merging(u: nat, v: nat, m: Merge)

  /**
   * joined and refused record, in order, the argument pairs of the calls that returned true and
   * false, lost the children that the former returned.
   */
  datatype System = System(d: Dsu, tasks: seq<Task>, joined: seq<Edge>, refused: seq<Edge>, lost: seq<nat>)

  datatype Move =
    | BeginFind(x: nat)
    | BeginMerge(u: nat, v: nat)
    | Work(c: Choice)
    | Retire

  ghost predicate Init(s: System) {
    && s.d == Singletons(s.d.prio)
    && (forall t | t in s.tasks :: t.Idle?)
    && s.joined == [] && s.refused == [] && s.lost == []
  }

  ghost predicate TaskInv(d: Dsu, t: Task)
    requires d.Valid()
  {
    match t
    case Idle => true
    case Finding(x, f) => x < d.Size() && FindInv(d, x, f)
    case Merging(u, v, m) => u < d.Size() && v < d.Size() && MergeInRange(d.Size(), m) && MergeInv(d, u, v, m)
  }

  ghost predicate Tasks(s: System) {
    s.d.Valid() && forall t: nat | t < |s.tasks| :: TaskInv(s.d, s.tasks[t])
  }

  /** The next step of thread t touches only elements that exist. */
  predicate Defined(s: System, t: nat) {
    && t < |s.tasks| && s.d.Valid()
    && match s.tasks[t]
       case Idle => true
       case Finding(_, f) => InRange(s.d.Size(), f)
       case Merging(_, _, m) => MergeInRange(s.d.Size(), m)
  }

  /** Thread t of s may make the move mv and leave the system in r. */
  ghost predicate Next(s: System, t: nat, mv: Move, r: System) {
    && Defined(s, t)
    && match mv
       case BeginFind(x) =>
         s.tasks[t].Idle? && x < s.d.Size() &&
         r == s.(tasks := s.tasks[t := Finding(x, StartFind(x))])
       case BeginMerge(u, v) =>
         s.tasks[t].Idle? && u < s.d.Size() && v < s.d.Size() &&
         r == s.(tasks := s.tasks[t := Merging(u, v, Loop(u, v))])
       case Retire =>
         (s.tasks[t].Finding? ==> s.tasks[t].f.Found?) &&
         (s.tasks[t].Merging? ==> s.tasks[t].m.Finished?) &&
         r == s.(tasks := s.tasks[t := Idle])
       case Work(c) =>
         (match s.tasks[t]
          case Idle => false
          case Finding(x, f) =>
            var (e, g) := FindStep(s.d, f, c.pick);
            !f.Found? && r == s.(d := e, tasks := s.tasks[t := Finding(x, g)])
          case Merging(u, v, m) =>
            var (e, k) := MergeStep(s.d, m, c);
            !m.Finished? &&
            r == System(e, s.tasks[t := Merging(u, v, k)],
                        if Linked(m, k) then s.joined + [Edge(u, v)] else s.joined,
                        if k.Finished? && !k.merged then s.refused + [Edge(u, v)] else s.refused,
                        if Linked(m, k) then s.lost + [k.child] else s.lost))
  }

  /**
   * The partition is the one generated by the calls that returned true; each of them
   * removed exactly one set and returned the element that is no root from then on, no two the
   * same; the arguments of every other call ended in one set.
   */
  ghost predicate Accounted(s: System) {
    && Tasks(s)
    && Spans(s.d, PairGraph(s.joined))
    && |s.joined| + |s.d.Roots()| == s.d.Size() && LostRoots(s.d, s.lost) && |s.lost| == |s.joined|
    && (forall e | e in s.refused :: e.src < s.d.Size() && e.dst < s.d.Size() && s.d.SameSet(e.src, e.dst))
  }

  /** Exactly the listed elements are no roots, each listed once. */
  ghost predicate LostRoots(d: Dsu, lost: seq<nat>) {
    && (forall x: nat | x < d.Size() :: d.IsRoot(x) <==> x !in lost)
    && (forall i: nat, j: nat | i < j < |lost| :: lost[i] != lost[j])
  }

  lemma LosesOne(d: Dsu, e: Dsu, lost: seq<nat>, c: nat)
    requires d.Valid() && e.Valid() && e.Size() == d.Size() && LostRoots(d, lost) && c in d.Roots() && e.Roots() == d.Roots() - {c}
    ensures LostRoots(e, lost + [c])
  {
    forall x: nat | x < e.Size()
      ensures e.IsRoot(x) <==> x !in lost + [c]
    {
      assert e.IsRoot(x) <==> x in e.Roots();
      assert d.IsRoot(x) <==> x in d.Roots();
    }
  }

  lemma TasksStable(s: System, e: Dsu, t: nat, tasks: seq<Task>)
    requires Tasks(s) && Evolves(s.d, e) && t < |s.tasks| == |tasks|
    requires tasks == s.tasks[t := tasks[t]] && TaskInv(e, tasks[t])
    ensures forall i: nat | i < |tasks| :: TaskInv(e, tasks[i])
  {
    forall i: nat | i < |tasks|
      ensures TaskInv(e, tasks[i])
    {
      assert TaskInv(s.d, s.tasks[i]);
      match s.tasks[i]
      case Idle =>
      case Finding(x, f) => FindInvStable(s.d, e, x, f);
      case Merging(u, v, m) => MergeInvStable(s.d, e, u, v, m);
    }
  }

  lemma SameRootsSpan(d: Dsu, e: Dsu, f: Graph)
    requires Spans(d, f) && SameRoots(d, e)
    ensures Spans(e, f) && e.Roots() == d.Roots() && Evolves(d, e)
  {
    forall x: nat, y: nat | x < d.Size() && y < d.Size()
      ensures e.SameSet(x, y) <==> Connected(f, x, y)
    {
      assert d.SameSet(x, y) <==> Connected(f, x, y);
    }
  }

  lemma LinkAccounted(d: Dsu, e: Dsu, joined: seq<Edge>, u: nat, v: nat)
    requires Spans(d, PairGraph(joined)) && u < d.Size() && v < d.Size() && Joined(d, e, u, v)
    requires !d.SameSet(u, v)
    ensures Spans(e, PairGraph(joined + [Edge(u, v)]))
  {
    var edge := Edge(u, v);
    JoinedElsewhere(d, e, u, v, Norm(edge).src, Norm(edge).dst);
    JoinSpans(d, e, PairGraph(joined), Norm(edge));
    assert PairGraph(joined + [edge]) == PairGraph(joined) + {Norm(edge)};
  }

  lemma MergeMoveKeeps(s: System, t: nat, c: Choice, r: System)
    requires Accounted(s) && Next(s, t, Work(c), r) && s.tasks[t].Merging?
    ensures Accounted(r) && Evolves(s.d, r.d)
  {
    var Merging(u, v, m) := s.tasks[t];
    assert TaskInv(s.d, s.tasks[t]);
    MergeStepKeeps(s.d, u, v, m, c);
    var (e, k) := MergeStep(s.d, m, c);
    if Linked(m, k) {
      LinkAccounted(s.d, e, s.joined, u, v);
      SwapHangs(s.d, u, v, m, c);
      LosesOne(s.d, e, s.lost, k.child);
    } else {
      SameRootsSpan(s.d, e, PairGraph(s.joined));
    }
    TasksStable(s, e, t, r.tasks);
    forall x | x in r.refused
      ensures x.src < e.Size() && x.dst < e.Size() && e.SameSet(x.src, x.dst)
    {
      if x in s.refused {
        assert s.d.SameSet(x.src, x.dst);
      }
    }
  }

  lemma MoveKeeps(s: System, t: nat, mv: Move, r: System)
    requires Accounted(s) && Next(s, t, mv, r)
    ensures Accounted(r) && Evolves(s.d, r.d)
  {
    if mv.Work? && s.tasks[t].Merging? {
      MergeMoveKeeps(s, t, mv.c, r);
    } else if mv.Work? {
      var Finding(x, f) := s.tasks[t];
      assert TaskInv(s.d, s.tasks[t]);
      FindStepKeeps(s.d, x, f, mv.c.pick);
      SameRootsSpan(s.d, r.d, PairGraph(s.joined));
      TasksStable(s, r.d, t, r.tasks);
    } else {
      if mv.BeginFind? {
        ParentUp(s.d, mv.x);
      }
      TasksStable(s, s.d, t, r.tasks);
    }
  }

  /** Every state of every run is accounted for, no step leaves the arrays, and sets never shrink. */
  lemma {:induction false} EveryRunAccounted(run: seq<System>, moves: seq<(nat, Move)>)
    requires |run| == |moves| + 1 && Init(run[0])
    requires forall i: nat | i < |moves| :: Next(run[i], moves[i].0, moves[i].1, run[i + 1])
    ensures Accounted(run[|moves|]) && Evolves(run[0].d, run[|moves|].d)
    ensures forall t: nat | t < |run[|moves|].tasks| :: Defined(run[|moves|], t)
  {
    if moves == [] {
      SingletonsSpanned(run[0].d.prio);
      assert PairGraph([]) == {};
    } else {
      var m := |moves| - 1;
      EveryRunAccounted(run[..m + 1], moves[..m]);
      MoveKeeps(run[m], moves[m].0, moves[m].1, run[m + 1]);
      EvolvesTrans(run[0].d, run[m].d, run[m + 1].d);
    }
    AllDefined(run[|moves|]);
  }

  // How long a call of merge takes

  /** How many of the moves are thread t's own. */
  function Own(moves: seq<(nat, Move)>, t: nat): nat {
    if moves == [] then 0 else
    var m := |moves| - 1;
    Own(moves[..m], t) + if moves[m].0 == t then 1 else 0
  }

  /** How many of thread t's moves met a spurious failure. */
  function Spurious(moves: seq<(nat, Move)>, t: nat): nat {
    if moves == [] then 0 else
    var m := |moves| - 1;
    Spurious(moves[..m], t) + if moves[m].0 == t && moves[m].1.Work? && moves[m].1.c.spurious then 1 else 0
  }

  /** Thread t is still in, or has just finished, the call merge(u, v). */
  ghost predicate InCall(s: System, t: nat, u: nat, v: nat) {
    && Accounted(s) && t < |s.tasks| && u < s.d.Size() && v < s.d.Size()
    && s.tasks[t].Merging? && s.tasks[t].u == u && s.tasks[t].v == v && MergeInRange(s.d.Size(), s.tasks[t].m)
  }

  lemma MeasureSame(d: Dsu, e: Dsu, m: Merge)
    requires d.Valid() && e.Valid() && d.prio == e.prio && MergeInRange(d.Size(), m)
    ensures MergeInRange(e.Size(), m) && MergeMeasure(e, m) == MergeMeasure(d, m)
  {
    match m
    case Loop(a, b) => RankSame(d, e, a); RankSame(d, e, b);
    case FindFirst(f, other) => RankSame(d, e, At(f)); RankSame(d, e, other);
    case FindSecond(f, other) => RankSame(d, e, At(f)); RankSame(d, e, other);
    case Cas(a, b) => RankSame(d, e, a); RankSame(d, e, b);
    case Finished(_, _, _) =>
  }

  lemma CallMove(s: System, i: nat, mv: Move, r: System, t: nat, u: nat, v: nat)
    requires InCall(s, t, u, v) && Next(s, i, mv, r) && (i == t ==> mv.Work?)
    ensures InCall(r, t, u, v)
    ensures MergeMeasure(r.d, r.tasks[t].m) + (if i == t then 1 else 0)
      <= MergeMeasure(s.d, s.tasks[t].m) + (if i == t && mv.Work? && mv.c.spurious then 26 else 0)
  {
    MoveKeeps(s, i, mv, r);
    assert TaskInv(r.d, r.tasks[t]) && TaskInv(s.d, s.tasks[t]);
    if i == t {
      MergeStepsBounded(s.d, u, v, s.tasks[t].m, mv.c);
    } else {
      MeasureSame(s.d, r.d, s.tasks[t].m);
    }
  }

  lemma {:induction false} CallRun(run: seq<System>, moves: seq<(nat, Move)>, t: nat, u: nat, v: nat)
    requires |run| == |moves| + 1 && InCall(run[0], t, u, v)
    requires forall i: nat | i < |moves| :: Next(run[i], moves[i].0, moves[i].1, run[i + 1])
    requires forall i: nat | i < |moves| && moves[i].0 == t :: moves[i].1.Work?
    ensures InCall(run[|moves|], t, u, v)
    ensures MergeMeasure(run[|moves|].d, run[|moves|].tasks[t].m) + Own(moves, t)
      <= MergeMeasure(run[0].d, run[0].tasks[t].m) + 26 * Spurious(moves, t)
  {
    if moves != [] {
      var m := |moves| - 1;
      CallRun(run[..m + 1], moves[..m], t, u, v);
      CallMove(run[m], moves[m].0, moves[m].1, run[m + 1], t, u, v);
    }
  }

  /**
   * merge is wait-free: whatever the other threads do, a call takes fewer than 80 n steps of
   * its own, plus at most 26 for each spurious failure.
   */
  lemma MergeIsWaitFree(run: seq<System>, moves: seq<(nat, Move)>, t: nat, u: nat, v: nat)
    requires |run| == |moves| + 1 && Accounted(run[0])
    requires t < |run[0].tasks| && run[0].tasks[t] == Merging(u, v, Loop(u, v))
    requires forall i: nat | i < |moves| :: Next(run[i], moves[i].0, moves[i].1, run[i + 1])
    requires forall i: nat | i < |moves| && moves[i].0 == t :: moves[i].1.Work?
    ensures Own(moves, t) < 80 * run[0].d.Size() + 26 * Spurious(moves, t)
  {
    assert TaskInv(run[0].d, run[0].tasks[t]);
    MergeStartBound(run[0].d, u, v);
    CallRun(run, moves, t, u, v);
  }

  lemma AllDefined(s: System)
    requires Tasks(s)
    ensures forall t: nat | t < |s.tasks| :: Defined(s, t)
  {
    forall t: nat | t < |s.tasks|
      ensures Defined(s, t)
    {
      assert TaskInv(s.d, s.tasks[t]);
    }
  }
}
