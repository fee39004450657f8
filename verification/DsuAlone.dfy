// find_root and merge of the lock-free union-find when no other thread interferes
// (include/dsu.h, lines 145-167).

module DsuAlone {
  import opened Graphs
  import opened DsuSpec
  import opened DsuConcurrent
  import opened DsuFindRace

  /** A lone search on its way from d to what path halving makes of it. */
  ghost predicate Halving(e: Dsu, f: Find, goal: Dsu)
    requires e.Valid() && InRange(e.Size(), f)
  {
    Current(e, f) &&
    match f
    case Guard(u, _, _, _) => Halved(e, u) == goal
    case LoadParent(u) => !e.IsRoot(e.parent[u]) && Halved(e, u) == goal
    case LoadGrand(u, p) => p == e.parent[u] && !e.IsRoot(p) && Halved(e, u) == goal
    case StoreHalf(u, g) => g == e.parent[e.parent[u]] && !e.IsRoot(e.parent[u]) && Halved(e, u) == goal
    case Advance(u) => Halved(e, e.parent[u]) == goal
    case Exit(_) => e == goal
    case Found(_) => e == goal
  }

  lemma HalvingStep(d: Dsu, x: nat, f: Find, pick: nat, goal: Dsu)
    requires d.Valid() && x < d.Size() && FindInv(d, x, f) && Halving(d, f, goal) && !f.Found?
    ensures var (e, g) := FindStep(d, f, pick); e.Valid() && InRange(e.Size(), g) && Halving(e, g, goal)
  {
    FindStepKeeps(d, x, f, pick);
    CurrentStep(d, x, f, pick);
    if f.StoreHalf? {
      assert FindStep(d, f, pick).0 == Shortcut(d, f.u);
    }
  }

  /** Without interference find_root returns the root and halves the way to it. */
  method FindRoot(d: Dsu, x: nat) returns (e: Dsu, r: nat)
    requires d.Valid() && x < d.Size()
    ensures SameRoots(d, e) && r == d.Root(x) && e == Halved(d, x)
  {
    e := d;
    var f := StartFind(x);
    ParentUp(d, x);
    while !f.Found?
      invariant SameRoots(d, e) && FindInv(e, x, f) && Halving(e, f, Halved(d, x))
      decreases FindMeasure(e, f)
    {
      var pick: nat := *;
      FindStepKeeps(e, x, f, pick);
      HalvingStep(e, x, f, pick, Halved(d, x));
      SameRootsTrans(d, e, FindStep(e, f, pick).0);
      var (e', f') := FindStep(e, f, pick);
      e, f := e', f';
    }
    r := f.r;
  }

  /** Without interference a merge only compares and swaps roots. */
  ghost predicate OnRoots(d: Dsu, m: Merge)
    requires d.Valid() && MergeInRange(d.Size(), m)
  {
    match m
    case FindFirst(f, _) => Current(d, f)
    case FindSecond(f, other) => Current(d, f) && d.IsRoot(other)
    case Cas(a, b) => d.IsRoot(a) && d.IsRoot(b)
    case _ => true
  }

  lemma OnRootsStep(d: Dsu, u: nat, v: nat, m: Merge, c: Choice)
    requires d.Valid() && u < d.Size() && v < d.Size() && MergeInRange(d.Size(), m) && MergeInv(d, u, v, m) && !m.Finished?
    requires OnRoots(d, m)
    ensures var (e, k) := MergeStep(d, m, c);
      && e.Valid() && MergeInRange(e.Size(), k) && OnRoots(e, k)
      && (Linked(m, k) ==> d.IsRoot(k.root) && d.IsRoot(k.child))
      && (k.Finished? && !k.merged ==> k.root == 0 && k.child == 0)
  {
    MergeStepKeeps(d, u, v, m, c);
    if (m.FindFirst? || m.FindSecond?) && !m.f.Found? {
      CurrentStep(d, At(m.f), m.f, c.pick);
    }
  }

  /** The two roots in the order in which they were linked. */
  ghost predicate Linking(d: Dsu, e: Dsu, u: nat, v: nat, root: nat, child: nat)
    requires d.Valid() && u < d.Size() && v < d.Size()
  {
    && {root, child} == {d.Root(u), d.Root(v)} && child in d.Roots() && e.Roots() == d.Roots() - {child}
  }

  lemma LinkedRoots(d: Dsu, e: Dsu, e': Dsu, u: nat, v: nat, k: Merge)
    requires SameRoots(d, e) && u < d.Size() && v < d.Size() && k.Finished? && k.merged && Hung(e, e', u, v, k)
    requires e.IsRoot(k.root)
    ensures Linking(d, e', u, v, k.root, k.child)
  {
    assert e.Roots() == d.Roots();
    assert e.Root(k.root) == k.root && e.Root(k.child) == k.child;
  }

  /**
   * Without interference merge joins two distinct sets, by hanging one root under the other, or
   * finds that they are one.
   */
  method Merge(d: Dsu, u: nat, v: nat, spurious: nat) returns (e: Dsu, merged: bool, root: nat, child: nat)
    requires d.Valid() && u < d.Size() && v < d.Size()
    ensures Evolves(d, e) && merged == !d.SameSet(u, v)
    ensures merged ==> Joined(d, e, u, v) && |e.Roots()| == |d.Roots()| - 1 && Linking(d, e, u, v, root, child)
    ensures !merged ==> SameRoots(d, e) && root == 0 && child == 0
  {
    e := d;
    var m := Loop(u, v);
    ParentUp(d, u);
    ParentUp(d, v);
    EvolvesSame(d);
    var budget := spurious;
    while !m.Finished?
      invariant Evolves(d, e) && MergeInRange(e.Size(), m) && MergeInv(e, u, v, m)
      invariant !m.Finished? || !m.merged ==> SameRoots(d, e)
      invariant m.Finished? && m.merged ==> !d.SameSet(u, v) && Joined(d, e, u, v) && |e.Roots()| == |d.Roots()| - 1
      invariant m.Finished? && !m.merged ==> m.root == 0 && m.child == 0
      invariant OnRoots(e, m) && (m.Finished? && m.merged ==> Linking(d, e, u, v, m.root, m.child))
      decreases budget, if m.Finished? then 0 else 1 + MergeMeasure(e, m)
    {
      var pick: nat := *;
      var fails: bool := *;
      var c := Choice(pick, fails && budget > 0);
      MergeStepKeeps(e, u, v, m, c);
      var (e', m') := MergeStep(e, m, c);
      LinkAfterSteps(d, e, e', u, v, Linked(m, m'));
      OnRootsStep(e, u, v, m, c);
      if Linked(m, m') {
        SwapHangs(e, u, v, m, c);
        LinkedRoots(d, e, e', u, v, m');
      }
      if c.spurious {
        budget := budget - 1;
      } else {
        MergeStepsBounded(e, u, v, m, c);
      }
      e, m := e', m';
    }
    return e, m.merged, m.root, m.child;
  }

  /** Shortcuts before a step change nothing about what the step does to the sets. */
  lemma LinkAfterSteps(d: Dsu, e: Dsu, e': Dsu, u: nat, v: nat, linked: bool)
    requires SameRoots(d, e) && Evolves(d, e) && Evolves(e, e') && u < d.Size() && v < d.Size()
    requires linked ==> !e.SameSet(u, v) && Joined(e, e', u, v) && |e'.Roots()| == |e.Roots()| - 1
    requires !linked ==> SameRoots(e, e')
    ensures Evolves(d, e')
    ensures linked ==> !d.SameSet(u, v) && Joined(d, e', u, v) && |e'.Roots()| == |d.Roots()| - 1
    ensures !linked ==> SameRoots(d, e')
  {
    EvolvesTrans(d, e, e');
    if linked {
      assert e.Roots() == d.Roots();
      forall x: nat, y: nat | x < d.Size() && y < d.Size()
        ensures e'.SameSet(x, y) <==> Bridged(d, u, v, x, y)
      {
        assert e'.SameSet(x, y) <==> Bridged(e, u, v, x, y);
      }
    } else {
      SameRootsTrans(d, e, e');
    }
  }
}
