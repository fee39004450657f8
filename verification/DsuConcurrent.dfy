// The lock-free union-find (include/dsu.h, class DisjointSetUnion_MT), one atomic
// load, store or compare-and-swap per step.

module DsuConcurrent {
  import opened Counting
  import opened DsuSpec

  datatype Option<T> = None | Some(value: T)

  /** Scheduler choices inside one thread: unsequenced operand loads, spurious CAS failures. */
  datatype Choice = Choice(pick: nat, spurious: bool)

  /**
   * find_root(u). Guard collects the three loads of the loop condition
   * parent[parent[u]] != parent[u]: p1 and then p2 for the left operand, p3 for the
   * right one. C++ leaves the order of the two operands open.
   */
  datatype Find =
    | Guard(u: nat, p1: Option<nat>, p2: Option<nat>, p3: Option<nat>)
    | LoadParent(u: nat)
    | LoadGrand(u: nat, p: nat)
    | StoreHalf(u: nat, g: nat)
    | Advance(u: nat)
    | Exit(u: nat)
    | Found(r: nat)

  function StartFind(u: nat): Find {
    Guard(u, None, None, None)
  }

  /** The node a find currently stands on. */
  function At(f: Find): nat {
    if f.Found? then f.r else f.u
  }

  /** The elements a find will use as indices. */
  predicate InRange(n: nat, f: Find) {
    match f
    case Guard(u, p1, p2, p3) => u < n && (p1.Some? ==> p1.value < n)
    case LoadGrand(u, p) => u < n && p < n
    case _ => At(f) < n
  }

  function GuardStep(d: Dsu, f: Find, pick: nat): Find
    requires d.Valid() && InRange(d.Size(), f) && f.Guard?
  {
    if f.p2.Some? && f.p3.Some? then
      if f.p2 == f.p3 then Exit(f.u) else LoadParent(f.u)
    else if f.p3.None? && (pick == 0 || f.p2.Some?) then
      f.(p3 := Some(d.parent[f.u]))
    else if f.p1.None? then
      f.(p1 := Some(d.parent[f.u]))
    else
      f.(p2 := Some(d.parent[f.p1.value]))
  }

  /** One atomic step of find_root; a finished find does not move. */
  function FindStep(d: Dsu, f: Find, pick: nat): (r: (Dsu, Find))
    requires d.Valid() && InRange(d.Size(), f)
  {
    match f
    case Guard(_, _, _, _) => (d, GuardStep(d, f, pick))
    case LoadParent(u) => (d, LoadGrand(u, d.parent[u]))
    case LoadGrand(u, p) => (d, StoreHalf(u, d.parent[p]))
    case StoreHalf(u, g) => (d.(parent := d.parent[u := g]), Advance(u))
    case Advance(u) => (d, StartFind(d.parent[u]))
    case Exit(u) => (d, Found(d.parent[u]))
    case Found(_) => (d, f)
  }

  /** p was read from u's chain: the same set, and u itself or above it. */
  ghost predicate Up(d: Dsu, u: nat, p: nat)
    requires d.Valid() && u < d.Size()
  {
    p < d.Size() && d.SameSet(u, p) && (p == u || d.Above(p, u))
  }

  ghost predicate LoadOk(d: Dsu, u: nat, p: Option<nat>)
    requires d.Valid() && u < d.Size()
  {
    p.Some? ==> Up(d, u, p.value) && (d.IsRoot(u) ==> p.value == u)
  }

  /** What a thread searching from x may rely on, whatever the others do. */
  ghost predicate FindInv(d: Dsu, x: nat, f: Find)
    requires d.Valid() && x < d.Size()
  {
    InRange(d.Size(), f) && Up(d, x, At(f)) &&
    match f
    case Guard(u, p1, p2, p3) =>
      LoadOk(d, u, p1) && LoadOk(d, u, p2) && LoadOk(d, u, p3) && (p2.Some? ==> p1.Some?)
    case LoadParent(u) => !d.IsRoot(u)
    case LoadGrand(u, p) => !d.IsRoot(u) && Up(d, u, p) && p != u
    case StoreHalf(u, g) => !d.IsRoot(u) && g < d.Size() && d.Above(g, u) && d.SameSet(u, g)
    case Advance(u) => !d.IsRoot(u)
    case Exit(_) => true
    case Found(_) => true
  }

  lemma FindInvStable(d: Dsu, e: Dsu, x: nat, f: Find)
    requires Evolves(d, e) && x < d.Size() && FindInv(d, x, f)
    ensures FindInv(e, x, f)
  {
  }

  lemma UpTrans(d: Dsu, a: nat, b: nat, c: nat)
    requires d.Valid() && a < d.Size() && b < d.Size() && Up(d, a, b) && Up(d, b, c)
    ensures Up(d, a, c) && d.Rank(c) <= d.Rank(b) <= d.Rank(a)
  {
    if a != b {
      RankDrops(d, b, a);
    }
    if b != c {
      RankDrops(d, c, b);
    }
  }

  lemma ParentUp(d: Dsu, u: nat)
    requires d.Valid() && u < d.Size()
    ensures Up(d, u, d.parent[u]) && Up(d, u, u)
  {
  }

  /** Steps left inside one iteration of the find loop. */
  function FindPhase(f: Find): nat {
    match f
    case Guard(_, p1, p2, p3) =>
      6 + (if p1.Some? then 0 else 1) + (if p2.Some? then 0 else 1) + (if p3.Some? then 0 else 1)
    case LoadParent(_) => 5
    case LoadGrand(_, _) => 4
    case StoreHalf(_, _) => 3
    case Advance(_) => 2
    case Exit(_) => 1
    case Found(_) => 0
  }

  ghost function FindMeasure(d: Dsu, f: Find): nat
    requires d.Valid() && InRange(d.Size(), f)
  {
    FindPhase(f) + 40 * d.Rank(At(f))
  }

  lemma GuardStepKeeps(d: Dsu, x: nat, f: Find, pick: nat)
    requires d.Valid() && x < d.Size() && f.Guard? && FindInv(d, x, f)
    ensures FindInv(d, x, GuardStep(d, f, pick))
    ensures FindPhase(GuardStep(d, f, pick)) < FindPhase(f) && At(GuardStep(d, f, pick)) == f.u
  {
    ParentUp(d, f.u);
    if f.p1.Some? {
      ParentUp(d, f.p1.value);
      UpTrans(d, f.u, f.p1.value, d.parent[f.p1.value]);
    }
  }

  lemma WalkKeeps(d: Dsu, x: nat, f: Find)
    requires d.Valid() && x < d.Size() && FindInv(d, x, f) && !f.Guard? && !f.StoreHalf? && !f.Found?
    ensures FindInv(d, x, FindStep(d, f, 0).1)
    ensures FindMeasure(d, FindStep(d, f, 0).1) < FindMeasure(d, f)
    ensures d.Rank(At(FindStep(d, f, 0).1)) <= d.Rank(At(f))
  {
    var u := f.u;
    ParentUp(d, u);
    UpTrans(d, x, u, d.parent[u]);
    match f
    case LoadGrand(_, p) =>
      ParentUp(d, p);
      UpTrans(d, u, p, d.parent[p]);
    case Advance(_) =>
      RankDrops(d, d.parent[u], u);
    case _ =>
  }

  /**
   * One step of find_root under arbitrary interference: the caller's invariant holds
   * again, no element changes its set, and the step count of the find goes down.
   */
  lemma FindStepKeeps(d: Dsu, x: nat, f: Find, pick: nat)
    requires d.Valid() && x < d.Size() && FindInv(d, x, f) && !f.Found?
    ensures var (e, g) := FindStep(d, f, pick);
      SameRoots(d, e) && Evolves(d, e) && FindInv(e, x, g) &&
      FindMeasure(e, g) < FindMeasure(d, f) && e.Rank(At(g)) <= d.Rank(At(f))
  {
    if f.Guard? {
      GuardStepKeeps(d, x, f, pick);
    } else if f.StoreHalf? {
      HalveKeepsSets(d, f.u, f.g);
      var e := d.(parent := d.parent[f.u := f.g]);
      FindInvStable(d, e, x, f);
      assert e.Higher(f.u) == d.Higher(f.u);
    } else {
      WalkKeeps(d, x, f);
    }
  }

  /**
   * merge(u, v). The two find_root operands of the loop condition may run in either
   * order, so FindFirst and FindSecond carry the other value along.
   */
  datatype Merge =
    | Loop(a: nat, b: nat)
    | FindFirst(f: Find, other: nat)
    | FindSecond(f: Find, other: nat)
    | Cas(a: nat, b: nat)
    | Finished(merged: bool, root: nat, child: nat)

  predicate MergeInRange(n: nat, m: Merge) {
    match m
    case Loop(a, b) => a < n && b < n
    case FindFirst(f, other) => InRange(n, f) && other < n
    case FindSecond(f, other) => InRange(n, f) && other < n
    case Cas(a, b) => a < n && b < n
    case Finished(_, _, _) => true
  }

  /** order_edge, then the swap attempt; equal representatives end the loop. */
  function Compare(d: Dsu, a: nat, b: nat): Merge
    requires d.Valid() && a < d.Size() && b < d.Size()
  {
    if a == b then Finished(false, 0, 0)
    else if d.Above(a, b) then Cas(a, b)
    else Cas(b, a)
  }

  /**
   * One atomic step of merge. A failed compare_exchange_weak leaves the current parent
   * of b in b, also when it fails spuriously.
   */
  function MergeStep(d: Dsu, m: Merge, c: Choice): (Dsu, Merge)
    requires d.Valid() && MergeInRange(d.Size(), m)
  {
    match m
    case Loop(a, b) =>
      (d, if c.pick == 0 then FindFirst(StartFind(a), b) else FindFirst(StartFind(b), a))
    case FindFirst(f, other) =>
      if f.Found? then (d, FindSecond(StartFind(other), f.r)) else
      var (e, g) := FindStep(d, f, c.pick);
      (e, FindFirst(g, other))
    case FindSecond(f, other) =>
      if f.Found? then (d, Compare(d, f.r, other)) else
      var (e, g) := FindStep(d, f, c.pick);
      (e, FindSecond(g, other))
    case Cas(a, b) =>
      if d.parent[b] == b && !c.spurious then
        (d.(parent := d.parent[b := a]), Finished(true, a, b))
      else
        (d, Loop(a, d.parent[b]))
    case Finished(_, _, _) => (d, m)
  }

  /** a and b stand in the sets of u and v, in one order or the other. */
  ghost predicate Pair(d: Dsu, u: nat, v: nat, a: nat, b: nat)
    requires d.Valid() && u < d.Size() && v < d.Size()
  {
    a < d.Size() && b < d.Size() &&
    ((d.SameSet(a, u) && d.SameSet(b, v)) || (d.SameSet(a, v) && d.SameSet(b, u)))
  }

  ghost predicate MergeInv(d: Dsu, u: nat, v: nat, m: Merge)
    requires d.Valid() && u < d.Size() && v < d.Size()
  {
    match m
    case Loop(a, b) => Pair(d, u, v, a, b)
    case FindFirst(f, other) => At(f) < d.Size() && FindInv(d, At(f), f) && Pair(d, u, v, At(f), other)
    case FindSecond(f, other) => At(f) < d.Size() && FindInv(d, At(f), f) && Pair(d, u, v, At(f), other)
    case Cas(a, b) => Pair(d, u, v, a, b) && d.Above(a, b)
    case Finished(_, _, _) => d.SameSet(u, v)
  }

  /** The successful swap: child was a root, and is now right under the root that is returned with it. */
  ghost predicate Hung(d: Dsu, e: Dsu, u: nat, v: nat, k: Merge)
    requires d.Valid() && u < d.Size() && v < d.Size() && k.Finished?
  {
    && Pair(d, u, v, k.root, k.child) && k.child in d.Roots()
    && e == d.(parent := d.parent[k.child := k.root]) && e.Roots() == d.Roots() - {k.child}
  }

  lemma MergeInvStable(d: Dsu, e: Dsu, u: nat, v: nat, m: Merge)
    requires Evolves(d, e) && u < d.Size() && v < d.Size() && MergeInv(d, u, v, m)
    ensures MergeInv(e, u, v, m)
  {
    match m
    case FindFirst(f, _) => FindInvStable(d, e, At(f), f);
    case FindSecond(f, _) => FindInvStable(d, e, At(f), f);
    case _ =>
  }

  ghost function MergeMeasure(d: Dsu, m: Merge): nat
    requires d.Valid() && MergeInRange(d.Size(), m)
  {
    match m
    case Loop(a, b) => 40 * d.Rank(a) + 40 * d.Rank(b) + 30
    case FindFirst(f, other) => FindMeasure(d, f) + 40 * d.Rank(other) + 20
    case FindSecond(f, other) => FindMeasure(d, f) + 40 * d.Rank(other) + 10
    case Cas(a, b) => 40 * d.Rank(a) + 40 * d.Rank(b) + 5
    case Finished(_, _, _) => 0
  }

  lemma FindInsideMerge(d: Dsu, u: nat, v: nat, f: Find, other: nat, pick: nat)
    requires d.Valid() && u < d.Size() && v < d.Size() && At(f) < d.Size()
    requires FindInv(d, At(f), f) && !f.Found? && Pair(d, u, v, At(f), other)
    ensures var (e, g) := FindStep(d, f, pick);
      SameRoots(d, e) && Evolves(d, e) && At(g) < e.Size() && FindInv(e, At(g), g) &&
      Pair(e, u, v, At(g), other) && FindMeasure(e, g) < FindMeasure(d, f)
  {
    var (e, g) := FindStep(d, f, pick);
    FindStepKeeps(d, At(f), f, pick);
    assert Up(e, At(f), At(g));
    ParentUp(e, At(g));
  }

  lemma RankSame(d: Dsu, e: Dsu, x: nat)
    requires d.prio == e.prio && x < |d.prio|
    ensures e.Rank(x) == d.Rank(x)
  {
    assert e.Higher(x) == d.Higher(x);
  }

  /** Did this step perform a successful compare-and-swap? */
  predicate Linked(before: Merge, after: Merge) {
    !before.Finished? && after.Finished? && after.merged
  }

  /** Both searches are done: equal answers end the call, others are ordered for the swap. */
  lemma CompareKeeps(d: Dsu, u: nat, v: nat, f: Find, other: nat, c: Choice)
    requires d.Valid() && u < d.Size() && v < d.Size() && f.Found?
    requires MergeInRange(d.Size(), FindSecond(f, other)) && MergeInv(d, u, v, FindSecond(f, other))
    ensures var (e, k) := MergeStep(d, FindSecond(f, other), c);
      e == d && MergeInRange(d.Size(), k) && MergeInv(d, u, v, k) && !Linked(FindSecond(f, other), k)
  {
  }

  /**
   * One step of merge under arbitrary interference. Its invariant holds again and sets
   * only grow. A successful swap joins two sets that were distinct at that very step;
   * every other step leaves every element with its root.
   */
  lemma MergeStepKeeps(d: Dsu, u: nat, v: nat, m: Merge, c: Choice)
    requires d.Valid() && u < d.Size() && v < d.Size()
    requires MergeInRange(d.Size(), m) && MergeInv(d, u, v, m) && !m.Finished?
    ensures var (e, k) := MergeStep(d, m, c);
      && Evolves(d, e) && MergeInRange(e.Size(), k) && MergeInv(e, u, v, k)
      && (Linked(m, k) ==> !d.SameSet(u, v) && Joined(d, e, u, v) && |e.Roots()| == |d.Roots()| - 1)
      && (!Linked(m, k) ==> SameRoots(d, e))
  {
    EvolvesSame(d);
    match m
    case Loop(a, b) => ParentUp(d, a); ParentUp(d, b);
    case FindFirst(f, other) =>
      if f.Found? {
        ParentUp(d, other);
      } else {
        FindInsideMerge(d, u, v, f, other, c.pick);
      }
    case FindSecond(f, other) =>
      if f.Found? {
        CompareKeeps(d, u, v, f, other, c);
      } else {
        FindInsideMerge(d, u, v, f, other, c.pick);
      }
    case Cas(a, b) => CasKeeps(d, u, v, a, b, c);
  }

  /** A successful swap hangs one root, the child it returns, under the element it returns as root. */
  lemma SwapHangs(d: Dsu, u: nat, v: nat, m: Merge, c: Choice)
    requires d.Valid() && u < d.Size() && v < d.Size()
    requires MergeInRange(d.Size(), m) && MergeInv(d, u, v, m) && Linked(m, MergeStep(d, m, c).1)
    ensures var (e, k) := MergeStep(d, m, c); e.Valid() && e.Size() == d.Size() && Hung(d, e, u, v, k)
  {
    assert m.Cas?;
    LinkJoins(d, m.a, m.b);
  }

  lemma CasKeeps(d: Dsu, u: nat, v: nat, a: nat, b: nat, c: Choice)
    requires d.Valid() && u < d.Size() && v < d.Size() && Pair(d, u, v, a, b) && d.Above(a, b)
    ensures var (e, k) := MergeStep(d, Cas(a, b), c);
      && Evolves(d, e) && MergeInRange(e.Size(), k) && MergeInv(e, u, v, k)
      && (k.Finished? ==> !d.SameSet(u, v) && Joined(d, e, u, v) && |e.Roots()| == |d.Roots()| - 1)
      && (!k.Finished? ==> SameRoots(d, e))
  {
    if d.parent[b] == b && !c.spurious {
      var e := d.(parent := d.parent[b := a]);
      LinkJoins(d, a, b);
      JoinedElsewhere(d, e, a, b, u, v);
      assert |d.Roots() - {b}| == |d.Roots()| - 1;
      assert Bridged(d, u, v, u, v);
    } else {
      ParentUp(d, b);
    }
  }

  /** Merge is wait-free: without spurious failures every step of it lowers its own bound. */
  lemma MergeStepsBounded(d: Dsu, u: nat, v: nat, m: Merge, c: Choice)
    requires d.Valid() && u < d.Size() && v < d.Size()
    requires MergeInRange(d.Size(), m) && MergeInv(d, u, v, m) && !m.Finished?
    ensures var (e, k) := MergeStep(d, m, c);
      e.Valid() && MergeInRange(e.Size(), k) &&
      (MergeMeasure(e, k) < MergeMeasure(d, m) ||
       (c.spurious && m.Cas? && MergeMeasure(e, k) <= MergeMeasure(d, m) + 25))
  {
    MergeStepKeeps(d, u, v, m, c);
    var (e, k) := MergeStep(d, m, c);
    match m
    case Loop(a, b) =>
    case FindFirst(f, other) =>
      RankSame(d, e, other);
      if !f.Found? {
        FindInsideMerge(d, u, v, f, other, c.pick);
      }
    case FindSecond(f, other) =>
      RankSame(d, e, other);
      if !f.Found? {
        FindInsideMerge(d, u, v, f, other, c.pick);
      }
    case Cas(a, b) =>
      if d.parent[b] != b {
        RankDrops(d, d.parent[b], b);
      }
  }

  /** The bound a merge starts from: at most 80 n own steps. */
  lemma MergeStartBound(d: Dsu, u: nat, v: nat)
    requires d.Valid() && u < d.Size() && v < d.Size()
    ensures MergeInv(d, u, v, Loop(u, v)) && MergeMeasure(d, Loop(u, v)) < 80 * d.Size()
  {
    RankBound(d, u);
    RankBound(d, v);
  }
}
