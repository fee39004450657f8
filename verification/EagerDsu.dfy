// The eagerly maintained answer: pre_insert called from any number of stream threads
// (src/cc_sketch_alg.cpp, lines 79-104).

module EagerDsu {
  import opened Counting
  import opened Pairing
  import opened Graphs
  import opened DsuSpec
  import opened DsuConcurrent
  import opened Buckets
  import S = Supernode
  import B = BoruvkaSpec

  /**
   * A thread outside pre_insert; one that saw dsu_valid and waits for the lock of the
   * smaller endpoint; and, holding that lock, one that merges, inserts, or looks the edge up.
   */
  datatype Pre = Outside | Waiting(e: Edge) | Merging(e: Edge, m: Merge) | Inserting(e: Edge) | Looking(e: Edge)

  /**
   * valid is dsu_valid (and shared_dsu_valid). linked lists the edges whose swap succeeded
   * since the last query, calls every toggle, counting the edges already in the graph then.
   */
  datatype Eager = Eager(d: Dsu, forest: Graph, valid: bool, ths: seq<Pre>, linked: Graph, calls: multiset<Edge>)

  datatype Move = Call(e: Edge) | Lock | Work(c: Choice)

  predicate Holds(p: Pre, lock: nat) {
    (p.Merging? || p.Inserting? || p.Looking?) && p.e.src == lock
  }

  /** The thread still has to find out what its toggle of e means. */
  predicate Working(p: Pre, e: Edge) {
    (p.Waiting? || p.Merging? || p.Looking?) && p.e == e
  }

  function Marks(ths: seq<Pre>, e: Edge): (m: seq<nat>)
    ensures |m| == |ths|
  {
    seq(|ths|, t requires 0 <= t < |ths| => if Working(ths[t], e) then 1 else 0)
  }

  /** How many threads are working on e. */
  function Count(ths: seq<Pre>, e: Edge): nat {
    Total(Marks(ths, e))
  }

  lemma CountUpdate(ths: seq<Pre>, t: nat, p: Pre, e: Edge)
    requires t < |ths|
    ensures Count(ths[t := p], e) + (if Working(ths[t], e) then 1 else 0) ==
            Count(ths, e) + if Working(p, e) then 1 else 0
  {
    var x: nat := if Working(p, e) then 1 else 0;
    assert Marks(ths[t := p], e) == Marks(ths, e)[t := x];
    TotalUpdate(Marks(ths, e), t, x);
  }

  lemma {:induction false} CountNone(ths: seq<Pre>, e: Edge)
    requires forall t: nat | t < |ths| :: ths[t].Outside?
    ensures Count(ths, e) == 0
  {
    if ths != [] {
      CountNone(ths[..|ths| - 1], e);
      assert Marks(ths, e)[..|ths| - 1] == Marks(ths[..|ths| - 1], e);
    }
  }

  // The steps

  function MergeMove(s: Eager, t: nat, c: Choice): Eager
    requires t < |s.ths| && s.ths[t].Merging? && s.d.Valid() && MergeInRange(s.d.Size(), s.ths[t].m)
  {
    var Merging(e, m) := s.ths[t];
    var (d, k) := MergeStep(s.d, m, c);
    if Linked(m, k) then s.(d := d, linked := s.linked + {e}, ths := s.ths[t := Inserting(e)])
    else s.(d := d, ths := s.ths[t := if k.Finished? then Looking(e) else Merging(e, k)])
  }

  /** What thread t does next, or None when it has to wait. upd.type is never looked at. */
  function Act(s: Eager, t: nat, mv: Move): Option<Eager>
    requires t < |s.ths| && s.d.Valid() && (s.ths[t].Merging? ==> MergeInRange(s.d.Size(), s.ths[t].m))
  {
    match (s.ths[t], mv)
    case (Outside, Call(e)) =>
      if e.src == e.dst || e.src >= s.d.Size() || e.dst >= s.d.Size() then None else
      Some(s.(calls := s.calls + multiset{Norm(e)},
              ths := if s.valid then s.ths[t := Waiting(Norm(e))] else s.ths))
    case (Waiting(e), Lock) =>
      if exists u: nat :: u < |s.ths| && Holds(s.ths[u], e.src) then None
      else Some(s.(ths := s.ths[t := Merging(e, Loop(e.src, e.dst))]))
    case (Merging(_, _), Work(c)) => Some(MergeMove(s, t, c))
    case (Inserting(e), Work(_)) => Some(s.(forest := s.forest + {e}, ths := s.ths[t := Outside]))
    case (Looking(e), Work(_)) => Some(s.(valid := s.valid && e !in s.forest, ths := s.ths[t := Outside]))
    case _ => None
  }

  // What every step keeps

  /** What each thread needs for its next step, whatever the answer in d and forest is worth. */
  ghost predicate ThreadSane(d: Dsu, p: Pre)
    requires d.Valid()
  {
    && (!p.Outside? ==> p.e.src < p.e.dst < d.Size())
    && (p.Merging? ==> !p.m.Finished? && MergeInRange(d.Size(), p.m) && MergeInv(d, p.e.src, p.e.dst, p.m))
  }

  ghost predicate Sane(s: Eager) {
    s.d.Valid() && forall t: nat | t < |s.ths| :: ThreadSane(s.d, s.ths[t])
  }

  lemma SaneOthers(s: Eager, r: Eager, t: nat)
    requires Sane(s) && Evolves(s.d, r.d) && t < |s.ths| == |r.ths| && r.ths == s.ths[t := r.ths[t]] && ThreadSane(r.d, r.ths[t])
    ensures Sane(r)
  {
    forall u: nat | u < |r.ths|
      ensures ThreadSane(r.d, r.ths[u])
    {
      assert ThreadSane(s.d, s.ths[u]);
      if u != t && r.ths[u].Merging? {
        MergeInvStable(s.d, r.d, r.ths[u].e.src, r.ths[u].e.dst, r.ths[u].m);
      }
    }
  }

  /** Every step of every thread can be taken and leaves all others able to take theirs. */
  lemma ActSane(s: Eager, t: nat, mv: Move)
    requires Sane(s) && t < |s.ths|
    ensures s.ths[t].Merging? ==> MergeInRange(s.d.Size(), s.ths[t].m)
    ensures Act(s, t, mv).Some? ==>
      var r := Act(s, t, mv).value; Sane(r) && |r.ths| == |s.ths| && r.d.Size() == s.d.Size()
  {
    assert ThreadSane(s.d, s.ths[t]);
    if Act(s, t, mv).Some? {
      var r := Act(s, t, mv).value;
      EvolvesSame(s.d);
      if s.ths[t].Merging? {
        MergeStepKeeps(s.d, s.ths[t].e.src, s.ths[t].e.dst, s.ths[t].m, mv.c);
      } else if s.ths[t].Waiting? {
        ParentUp(s.d, s.ths[t].e.src);
      }
      assert r.ths == s.ths[t := r.ths[t]];
      SaneOthers(s, r, t);
    }
  }

  ghost predicate ThreadInv(s: Eager, p: Pre)
    requires s.d.Valid()
  {
    ThreadSane(s.d, p) &&
    match p
    case Inserting(e) => e in s.linked
    case Looking(e) => s.d.SameSet(e.src, e.dst)
    case _ => true
  }

  ghost predicate Pending(s: Eager, e: Edge) {
    exists t: nat :: t < |s.ths| && s.ths[t] == Inserting(e)
  }

  /** No two threads hold the same lock. */
  ghost predicate Exclusive(s: Eager) {
    forall t: nat, u: nat, l: nat | t < |s.ths| && u < |s.ths| && Holds(s.ths[t], l) && Holds(s.ths[u], l) :: t == u
  }

  /** A linked edge was toggled once; an edge across two sets only by threads still working on it. */
  ghost predicate Tallied(s: Eager, e: Edge)
    requires s.d.Valid()
  {
    && (e in s.linked ==> s.calls[e] == 1 + Count(s.ths, e))
    && (e in s.calls ==> e.src < e.dst < s.d.Size())
    && (e.src < e.dst < s.d.Size() && !s.d.SameSet(e.src, e.dst) ==> s.calls[e] == Count(s.ths, e))
  }

  /** Some linked edge has been toggled again. */
  ghost predicate Retoggled(s: Eager) {
    exists e :: e in s.linked && s.calls[e] >= 2
  }

  lemma RetoggledStays(s: Eager, r: Eager)
    requires Retoggled(s) && s.linked <= r.linked && s.calls <= r.calls
    ensures Retoggled(r)
  {
    var e :| e in s.linked && s.calls[e] >= 2;
    assert r.calls[e] >= 2;
  }

  ghost predicate EagerInv(s: Eager) {
    && S.ForestOf(s.d, s.linked) && s.forest <= s.linked
    && (forall t: nat | t < |s.ths| :: ThreadInv(s, s.ths[t]))
    && (forall e | e in s.linked && e !in s.forest :: Pending(s, e))
    && Exclusive(s)
    && (if s.valid then forall e :: Tallied(s, e) else Retoggled(s))
  }

  lemma ThreadStable(s: Eager, r: Eager, p: Pre)
    requires s.d.Valid() && ThreadInv(s, p) && Evolves(s.d, r.d) && s.linked <= r.linked
    ensures ThreadInv(r, p)
  {
    if p.Merging? {
      MergeInvStable(s.d, r.d, p.e.src, p.e.dst, p.m);
    }
  }

  lemma ThreadsStable(s: Eager, r: Eager, t: nat)
    requires EagerInv(s) && Evolves(s.d, r.d) && s.linked <= r.linked && t < |s.ths| == |r.ths|
    requires r.ths == s.ths[t := r.ths[t]] && ThreadInv(r, r.ths[t])
    ensures forall u: nat | u < |r.ths| :: ThreadInv(r, r.ths[u])
  {
    forall u: nat | u < |r.ths|
      ensures ThreadInv(r, r.ths[u])
    {
      if u != t {
        assert ThreadInv(s, s.ths[u]);
        ThreadStable(s, r, s.ths[u]);
      }
    }
  }

  lemma PendingStays(s: Eager, r: Eager, t: nat, e: Edge)
    requires Pending(s, e) && t < |s.ths| == |r.ths| && r.ths == s.ths[t := r.ths[t]]
    requires s.ths[t] != Inserting(e)
    ensures Pending(r, e)
  {
    var u: nat :| u < |s.ths| && s.ths[u] == Inserting(e);
    assert r.ths[u] == Inserting(e);
  }

  /** A thread that gives no lock another can hold keeps the locks exclusive. */
  lemma StillExclusive(s: Eager, r: Eager, t: nat)
    requires Exclusive(s) && t < |s.ths| == |r.ths| && r.ths == s.ths[t := r.ths[t]]
    requires forall l: nat | Holds(r.ths[t], l) :: Holds(s.ths[t], l) || forall u: nat | u < |s.ths| :: !Holds(s.ths[u], l)
    ensures Exclusive(r)
  {
    forall a: nat, b: nat, l: nat | a < |r.ths| && b < |r.ths| && Holds(r.ths[a], l) && Holds(r.ths[b], l)
      ensures a == b
    {
      assert a != t ==> Holds(s.ths[a], l);
      assert b != t ==> Holds(s.ths[b], l);
    }
  }

  lemma CallKeeps(s: Eager, t: nat, e: Edge)
    requires EagerInv(s) && t < |s.ths| && s.ths[t].Outside? && Act(s, t, Call(e)).Some?
    ensures EagerInv(Act(s, t, Call(e)).value)
  {
    var r := Act(s, t, Call(e)).value;
    if s.valid {
      ThreadsStable(s, r, t);
      StillExclusive(s, r, t);
      forall x | x in r.linked && x !in r.forest
        ensures Pending(r, x)
      {
        PendingStays(s, r, t, x);
      }
      forall x
        ensures Tallied(r, x)
      {
        assert Tallied(s, x);
        CountUpdate(s.ths, t, r.ths[t], x);
      }
    } else {
      forall u: nat | u < |r.ths|
        ensures ThreadInv(r, r.ths[u])
      {
        assert ThreadInv(s, s.ths[u]);
      }
      forall x | x in r.linked && x !in r.forest
        ensures Pending(r, x)
      {
        assert Pending(s, x);
      }
      RetoggledStays(s, r);
    }
  }

  lemma LockKeeps(s: Eager, t: nat)
    requires EagerInv(s) && t < |s.ths| && s.ths[t].Waiting? && Act(s, t, Lock).Some?
    ensures EagerInv(Act(s, t, Lock).value)
  {
    var r := Act(s, t, Lock).value;
    assert ThreadInv(s, s.ths[t]);
    ParentUp(s.d, s.ths[t].e.src);
    ThreadsStable(s, r, t);
    StillExclusive(s, r, t);
    forall x | x in r.linked && x !in r.forest
      ensures Pending(r, x)
    {
      PendingStays(s, r, t, x);
    }
    forall x | s.valid
      ensures Tallied(r, x)
    {
      assert Tallied(s, x);
      CountUpdate(s.ths, t, r.ths[t], x);
    }
    if !s.valid {
      RetoggledStays(s, r);
    }
  }

  lemma MergeMoveForest(s: Eager, t: nat, c: Choice)
    requires EagerInv(s) && t < |s.ths| && s.ths[t].Merging?
    ensures MergeInRange(s.d.Size(), s.ths[t].m)
    ensures var r := MergeMove(s, t, c);
      && S.ForestOf(r.d, r.linked) && Evolves(s.d, r.d) && ThreadInv(r, r.ths[t]) && s.linked <= r.linked
      && (r.linked == s.linked || (r.ths[t] == Inserting(s.ths[t].e) && r.linked == s.linked + {s.ths[t].e} &&
                                  !s.d.SameSet(s.ths[t].e.src, s.ths[t].e.dst)))
      && (r.linked == s.linked ==> !r.ths[t].Inserting? && SameRoots(s.d, r.d))
  {
    assert ThreadInv(s, s.ths[t]);
    var Merging(e, m) := s.ths[t];
    MergeStepKeeps(s.d, e.src, e.dst, m, c);
    var (d, k) := MergeStep(s.d, m, c);
    if Linked(m, k) {
      S.LinkForest(s.d, d, s.linked, e);
    } else {
      S.SameRootsForest(s.d, d, s.linked);
    }
  }

  lemma MergeTallied(s: Eager, t: nat, c: Choice, x: Edge)
    requires EagerInv(s) && t < |s.ths| && s.ths[t].Merging? && MergeInRange(s.d.Size(), s.ths[t].m) && s.valid
    ensures MergeMove(s, t, c).d.Valid() && Tallied(MergeMove(s, t, c), x)
  {
    MergeMoveForest(s, t, c);
    var r := MergeMove(s, t, c);
    assert Tallied(s, x) && ThreadInv(s, s.ths[t]);
    CountUpdate(s.ths, t, r.ths[t], x);
    if x.src < x.dst < s.d.Size() && s.d.SameSet(x.src, x.dst) {
      assert r.d.SameSet(x.src, x.dst);
    }
    if r.linked != s.linked {
      ConnEdge(r.linked, s.ths[t].e);
    }
  }

  lemma MergeMoveKeeps(s: Eager, t: nat, c: Choice)
    requires EagerInv(s) && t < |s.ths| && s.ths[t].Merging?
    ensures MergeInRange(s.d.Size(), s.ths[t].m)
    ensures EagerInv(MergeMove(s, t, c)) && Evolves(s.d, MergeMove(s, t, c).d)
  {
    MergeMoveForest(s, t, c);
    var r := MergeMove(s, t, c);
    ThreadsStable(s, r, t);
    StillExclusive(s, r, t);
    forall x | x in r.linked && x !in r.forest
      ensures Pending(r, x)
    {
      if x in s.linked {
        PendingStays(s, r, t, x);
      }
    }
    forall x | s.valid
      ensures Tallied(r, x)
    {
      MergeTallied(s, t, c, x);
    }
    if !s.valid {
      RetoggledStays(s, r);
    }
  }

  lemma InsertKeeps(s: Eager, t: nat, c: Choice)
    requires EagerInv(s) && t < |s.ths| && s.ths[t].Inserting?
    ensures EagerInv(Act(s, t, Work(c)).value)
  {
    var r := Act(s, t, Work(c)).value;
    assert ThreadInv(s, s.ths[t]);
    ThreadsStable(s, r, t);
    StillExclusive(s, r, t);
    forall x | x in r.linked && x !in r.forest
      ensures Pending(r, x)
    {
      PendingStays(s, r, t, x);
    }
    forall x | s.valid
      ensures Tallied(r, x)
    {
      assert Tallied(s, x);
      CountUpdate(s.ths, t, r.ths[t], x);
    }
    if !s.valid {
      RetoggledStays(s, r);
    }
  }

  /** The lock makes "linked" and "in the forest" agree for whoever looks. */
  lemma LookerSees(s: Eager, t: nat)
    requires EagerInv(s) && t < |s.ths| && s.ths[t].Looking?
    ensures s.ths[t].e in s.linked <==> s.ths[t].e in s.forest
  {
    var e := s.ths[t].e;
    if e in s.linked && e !in s.forest {
      var u: nat :| u < |s.ths| && s.ths[u] == Inserting(e);
      assert Holds(s.ths[u], e.src) && Holds(s.ths[t], e.src);
    }
  }

  lemma LookRetoggled(s: Eager, t: nat)
    requires EagerInv(s) && s.valid && t < |s.ths| && s.ths[t].Looking? && s.ths[t].e in s.linked
    ensures Retoggled(s)
  {
    var e := s.ths[t].e;
    assert Tallied(s, e);
    TotalAtLeast(Marks(s.ths, e), t);
  }

  lemma LookKeeps(s: Eager, t: nat, c: Choice)
    requires EagerInv(s) && t < |s.ths| && s.ths[t].Looking?
    ensures EagerInv(Act(s, t, Work(c)).value)
  {
    var r := Act(s, t, Work(c)).value;
    assert ThreadInv(s, s.ths[t]);
    LookerSees(s, t);
    ThreadsStable(s, r, t);
    StillExclusive(s, r, t);
    forall x | x in r.linked && x !in r.forest
      ensures Pending(r, x)
    {
      PendingStays(s, r, t, x);
    }
    forall x | r.valid
      ensures Tallied(r, x)
    {
      assert Tallied(s, x);
      CountUpdate(s.ths, t, r.ths[t], x);
    }
    if !s.valid {
      RetoggledStays(s, r);
    } else if !r.valid {
      LookRetoggled(s, t);
      RetoggledStays(s, r);
    }
  }

  /** Every step of every stream thread keeps the invariant. */
  lemma ActKeeps(s: Eager, t: nat, mv: Move)
    requires EagerInv(s) && t < |s.ths|
    ensures s.ths[t].Merging? ==> MergeInRange(s.d.Size(), s.ths[t].m)
    ensures Act(s, t, mv).Some? ==> EagerInv(Act(s, t, mv).value)
  {
    assert ThreadInv(s, s.ths[t]);
    if Act(s, t, mv).Some? {
      match s.ths[t] {
        case Outside => CallKeeps(s, t, mv.e);
        case Waiting(_) => LockKeeps(s, t);
        case Merging(_, _) => MergeMoveKeeps(s, t, mv.c);
        case Inserting(_) => InsertKeeps(s, t, mv.c);
        case Looking(_) => LookKeeps(s, t, mv.c);
      }
    }
  }

  // Whole runs

  /** The state after a query, or at construction: a forest inside g that spans it. */
  ghost predicate Fresh(d: Dsu, f: Graph, g: Graph) {
    S.ForestOf(d, f) && Spans(d, g) && f <= g
  }

  function Begin(d: Dsu, f: Graph, g: Graph, threads: nat): Eager {
    Eager(d, f, true, seq(threads, _ => Outside), f, multiset(g))
  }

  lemma BeginInv(d: Dsu, f: Graph, g: Graph, threads: nat)
    requires Fresh(d, f, g)
    ensures EagerInv(Begin(d, f, g, threads))
  {
    var s := Begin(d, f, g, threads);
    forall e
      ensures Tallied(s, e)
    {
      CountNone(s.ths, e);
      if e in g {
        ConnEdge(g, e);
      }
    }
  }

  /** The step of thread t touches only elements that exist. */
  predicate Defined(s: Eager, t: nat) {
    t < |s.ths| && s.d.Valid() && (s.ths[t].Merging? ==> MergeInRange(s.d.Size(), s.ths[t].m))
  }

  predicate Next(s: Eager, t: nat, mv: Move, r: Eager) {
    Defined(s, t) && Act(s, t, mv) == Some(r)
  }

  /** Every state of every run keeps the invariant, and no step leaves the arrays. */
  lemma {:induction false} EveryRun(d: Dsu, f: Graph, g: Graph, run: seq<Eager>, moves: seq<(nat, Move)>)
    requires Fresh(d, f, g) && |run| == |moves| + 1 && run[0] == Begin(d, f, g, |run[0].ths|)
    requires forall i: nat | i < |moves| :: Next(run[i], moves[i].0, moves[i].1, run[i + 1])
    ensures EagerInv(run[|moves|]) && forall t: nat | t < |run[|moves|].ths| :: Defined(run[|moves|], t)
  {
    if moves == [] {
      BeginInv(d, f, g, |run[0].ths|);
    } else {
      var m := |moves| - 1;
      EveryRun(d, f, g, run[..m + 1], moves[..m]);
      assert Next(run[m], moves[m].0, moves[m].1, run[m + 1]);
      ActKeeps(run[m], moves[m].0, moves[m].1);
    }
    AllDefined(run[|moves|]);
  }

  /** The thread inserts into, or looks into, the adjacency set of the smaller endpoint of its edge. */
  predicate Accesses(p: Pre, row: nat) {
    (p.Inserting? || p.Looking?) && row == if p.e.src < p.e.dst then p.e.src else p.e.dst
  }

  /** In every run, no two threads are at one adjacency set of the forest at the same time. */
  lemma RowsExclusive(d: Dsu, f: Graph, g: Graph, run: seq<Eager>, moves: seq<(nat, Move)>, t: nat, u: nat, row: nat)
    requires |run| == |moves| + 1 && Fresh(d, f, g) && run[0] == Begin(d, f, g, |run[0].ths|)
    requires forall i: nat | i < |moves| :: Next(run[i], moves[i].0, moves[i].1, run[i + 1])
    requires var s := run[|moves|]; t < |s.ths| && u < |s.ths| && Accesses(s.ths[t], row) && Accesses(s.ths[u], row)
    ensures t == u
  {
    EveryRun(d, f, g, run, moves);
    var s := run[|moves|];
    assert ThreadInv(s, s.ths[t]) && ThreadInv(s, s.ths[u]);
    assert Holds(s.ths[t], row) && Holds(s.ths[u], row);
  }

  lemma AllDefined(s: Eager)
    requires EagerInv(s)
    ensures forall t: nat | t < |s.ths| :: Defined(s, t)
  {
    forall t: nat | t < |s.ths|
      ensures Defined(s, t)
    {
      assert ThreadInv(s, s.ths[t]);
    }
  }

  /** The net graph: the edges toggled an odd number of times. */
  ghost function NetOf(calls: multiset<Edge>): Graph {
    set e | e in calls && calls[e] % 2 == 1
  }

  ghost function Net(s: Eager): Graph {
    NetOf(s.calls)
  }

  /**
   * Between calls, while dsu_valid holds: the spanning forest is an acyclic subset of the
   * net graph, one edge short of n per component, and the union-find has exactly the
   * graph's components.
   */
  lemma CachedAnswer(s: Eager)
    requires EagerInv(s) && s.valid && forall t: nat | t < |s.ths| :: s.ths[t].Outside?
    ensures s.forest <= Net(s) && Acyclic(s.forest) && |s.forest| + |s.d.Roots()| == s.d.Size()
    ensures Spans(s.d, s.forest) && Spans(s.d, Net(s))
  {
    ForestComplete(s);
    forall e | e in s.linked
      ensures e in Net(s)
    {
      QuietTally(s, e);
    }
    forall e | e in Net(s)
      ensures e.src < e.dst < s.d.Size() && s.d.SameSet(e.src, e.dst)
    {
      QuietTally(s, e);
    }
    B.ForestAndEdges(s.d, s.forest, Net(s));
  }

  lemma ForestComplete(s: Eager)
    requires EagerInv(s) && forall t: nat | t < |s.ths| :: s.ths[t].Outside?
    ensures s.forest == s.linked
  {
    forall e | e in s.linked
      ensures e in s.forest
    {
      assert e !in s.forest ==> Pending(s, e);
    }
  }

  /** The flag is cleared exactly when an edge of the spanning forest was toggled again. */
  lemma FlagMeansUntouched(s: Eager)
    requires EagerInv(s) && forall t: nat | t < |s.ths| :: s.ths[t].Outside?
    ensures s.valid <==> forall e | e in s.forest :: s.calls[e] == 1
  {
    ForestComplete(s);
    if s.valid {
      forall e | e in s.forest
        ensures s.calls[e] == 1
      {
        QuietTally(s, e);
      }
    }
  }

  lemma QuietTally(s: Eager, e: Edge)
    requires EagerInv(s) && s.valid && forall t: nat | t < |s.ths| :: s.ths[t].Outside?
    ensures e in s.linked ==> s.calls[e] == 1
    ensures e in s.calls ==> e.src < e.dst < s.d.Size() && s.d.SameSet(e.src, e.dst)
  {
    assert Tallied(s, e);
    CountNone(s.ths, e);
  }

  // One caller at a time

  /** Path halving in between calls changes nothing that matters here. */
  lemma HalvedBetween(s: Eager, e: Dsu)
    requires EagerInv(s) && s.ths == [] && SameRoots(s.d, e)
    ensures EagerInv(s.(d := e))
  {
    S.SameRootsForest(s.d, e, s.linked);
    var r := s.(d := e);
    if s.valid {
      forall x
        ensures Tallied(r, x)
      {
        assert Tallied(s, x);
      }
    }
  }

  /** What one whole call of pre_insert makes of the state, d being the union-find after its merge. */
  function Toggle(s: Eager, d: Dsu, e: Edge, merged: bool): Eager {
    if merged then Eager(d, s.forest + {e}, s.valid, s.ths, s.linked + {e}, s.calls + multiset{e})
    else Eager(d, s.forest, s.valid && e !in s.forest, s.ths, s.linked, s.calls + multiset{e})
  }

  /** A toggle whose merge joined two sets. */
  lemma TogglesIn(s: Eager, d: Dsu, e: Edge)
    requires EagerInv(s) && s.valid && s.ths == [] && e.src < e.dst < s.d.Size()
    requires !s.d.SameSet(e.src, e.dst) && Joined(s.d, d, e.src, e.dst) && Evolves(s.d, d)
    requires |d.Roots()| == |s.d.Roots()| - 1
    ensures EagerInv(Toggle(s, d, e, true))
  {
    var r := Toggle(s, d, e, true);
    ForestComplete(s);
    S.LinkForest(s.d, d, s.linked, e);
    assert Norm(e) == e && Count([], e) == 0;
    forall x
      ensures Tallied(r, x)
    {
      assert Tallied(s, x) && Count([], x) == 0;
      ConnEdge(r.linked, e);
      if x.src < x.dst < s.d.Size() && s.d.SameSet(x.src, x.dst) {
        assert d.SameSet(x.src, x.dst);
      }
    }
  }

  /** A toggle inside one set: the answer survives exactly when the edge is not in the forest. */
  lemma TogglesInside(s: Eager, d: Dsu, e: Edge)
    requires EagerInv(s) && s.valid && s.ths == [] && e.src < e.dst < s.d.Size()
    requires s.d.SameSet(e.src, e.dst) && SameRoots(s.d, d)
    ensures EagerInv(Toggle(s, d, e, false))
  {
    HalvedBetween(s, d);
    ForestComplete(s);
    var t := s.(d := d);
    var r := Toggle(s, d, e, false);
    if e in s.forest {
      QuietTally(s, e);
      assert r.calls[e] == 2;
    } else {
      forall x
        ensures Tallied(r, x)
      {
        assert Tallied(t, x) && Count([], x) == 0;
      }
    }
  }

  /** Toggling an edge flips it in the net graph and nothing else. */
  lemma NetToggles(calls: multiset<Edge>, e: Edge)
    ensures NetOf(calls + multiset{e}) == SymDiff(NetOf(calls), {e})
  {
    var more := calls + multiset{e};
    var a, b := NetOf(more), SymDiff(NetOf(calls), {e});
    forall x | x in a
      ensures x in b
    {
      assert more[x] == calls[x] + if x == e then 1 else 0;
    }
    forall x | x in b
      ensures x in a
    {
      assert more[x] == calls[x] + if x == e then 1 else 0;
    }
  }
}
