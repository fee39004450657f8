// How far a search gets in any case (include/dsu.h, lines 145-152): whatever the other searches
// do, the answer is never below the grandparent that the start had when the searches began.

module DsuFar {
  import opened DsuSpec
  import opened DsuConcurrent
  import opened DsuFindRace

  /** y lies on the way from x to its root. */
  ghost predicate OnWay(d: Dsu, x: nat, y: nat)
    requires d.Valid() && x < d.Size()
    decreases d.Rank(x)
  {
    x == y || (d.parent[x] != x && (RankDrops(d, d.parent[x], x); OnWay(d, d.parent[x], y)))
  }

  lemma {:induction false} WayUp(d: Dsu, x: nat, y: nat)
    requires d.Valid() && x < d.Size() && OnWay(d, x, y)
    ensures y < d.Size() && d.SameSet(x, y) && (y == x || d.Above(y, x))
    decreases d.Rank(x)
  {
    if x != y {
      RankDrops(d, d.parent[x], x);
      WayUp(d, d.parent[x], y);
    }
  }

  lemma {:induction false} WayTrans(d: Dsu, x: nat, y: nat, z: nat)
    requires d.Valid() && x < d.Size() && y < d.Size() && OnWay(d, x, y) && OnWay(d, y, z)
    ensures OnWay(d, x, z)
    decreases d.Rank(x)
  {
    if x != y {
      RankDrops(d, d.parent[x], x);
      WayTrans(d, d.parent[x], y, z);
    }
  }

  lemma ParentOnWay(d: Dsu, x: nat)
    requires d.Valid() && x < d.Size()
    ensures OnWay(d, x, d.parent[x])
  {
    if d.parent[x] != x {
      RankDrops(d, d.parent[x], x);
      assert OnWay(d, d.parent[x], d.parent[x]);
    }
  }

  lemma {:induction false} ParentsOnWay(d: Dsu, x: nat, y: nat)
    requires d.Valid() && x < d.Size() && y < d.Size() && OnWay(d, x, y)
    ensures OnWay(d, d.parent[x], d.parent[y])
    decreases d.Rank(x)
  {
    if x != y {
      var p := d.parent[x];
      RankDrops(d, p, x);
      ParentOnWay(d, p);
      ParentsOnWay(d, p, y);
      WayTrans(d, p, d.parent[p], d.parent[y]);
    }
  }

  /** r is the grandparent of x or further up: a root, or at least two links away. */
  ghost predicate Far(d: Dsu, x: nat, r: nat)
    requires d.Valid() && x < d.Size()
  {
    OnWay(d, Grand(d, x), r)
  }

  lemma FarFrom(d: Dsu, x: nat, u: nat, r: nat)
    requires d.Valid() && x < d.Size() && u < d.Size() && OnWay(d, x, u) && Far(d, u, r)
    ensures Far(d, x, r)
  {
    ParentsOnWay(d, x, u);
    ParentsOnWay(d, d.parent[x], d.parent[u]);
    WayTrans(d, Grand(d, x), Grand(d, u), r);
  }

  /** Two vertices in one set, the first not below the other's grandparent. */
  lemma FarMeans(d: Dsu, x: nat, r: nat)
    requires d.Valid() && x < d.Size() && Far(d, x, r)
    ensures r < d.Size() && d.SameSet(r, x)
    ensures d.IsRoot(r) || (!d.IsRoot(d.parent[x]) && r != x && r != d.parent[x])
  {
    var p, g := d.parent[x], Grand(d, x);
    ParentUp(d, x);
    ParentUp(d, p);
    WayUp(d, g, r);
    if d.IsRoot(p) {
      assert g == p;
      assert r == p;
    }
  }

  // Searches that start in the forest d0, while path halving changes it to d

  /** A value that a load of parent[u] may return: its parent at the start, or something far enough. */
  ghost predicate Loaded(d0: Dsu, u: nat, p: nat)
    requires d0.Valid() && u < d0.Size()
  {
    p < d0.Size() && (p == d0.parent[u] || Far(d0, u, p))
  }

  lemma LoadedOnWay(d0: Dsu, u: nat, p: nat)
    requires d0.Valid() && u < d0.Size() && Loaded(d0, u, p)
    ensures OnWay(d0, u, p)
  {
    ParentOnWay(d0, u);
    if p != d0.parent[u] {
      ParentOnWay(d0, d0.parent[u]);
      WayTrans(d0, d0.parent[u], Grand(d0, u), p);
      WayTrans(d0, u, d0.parent[u], p);
    }
  }

  /** Two loads in a row lead far enough. */
  lemma LoadedTwice(d0: Dsu, u: nat, p: nat, g: nat)
    requires d0.Valid() && u < d0.Size() && p < d0.Size() && Loaded(d0, u, p) && Loaded(d0, p, g)
    ensures Far(d0, u, g)
  {
    LoadedOnWay(d0, p, g);
    if p == d0.parent[u] {
      if g != d0.parent[p] {
        ParentOnWay(d0, Grand(d0, u));
        WayTrans(d0, Grand(d0, u), Grand(d0, p), g);
      }
    } else {
      WayTrans(d0, Grand(d0, u), p, g);
    }
  }

  ghost predicate AllLoaded(d0: Dsu, d: Dsu) {
    && d0.Valid() && d.Valid() && d.Size() == d0.Size()
    && forall u: nat | u < d0.Size() :: Loaded(d0, u, d.parent[u])
  }

  /** What has been halved stays halved. */
  ghost predicate Settles(d0: Dsu, d: Dsu, e: Dsu)
    requires d0.Valid() && d.Size() == e.Size() == d0.Size()
  {
    forall u: nat | u < d0.Size() && Far(d0, u, d.parent[u]) :: Far(d0, u, e.parent[u])
  }

  /** Where a search that started at x can stand. */
  ghost predicate FarFind(d0: Dsu, d: Dsu, x: nat, f: Find)
    requires d0.Valid() && d.Size() == d0.Size() && x < d0.Size()
  {
    InRange(d0.Size(), f) && (!f.Found? ==> OnWay(d0, x, f.u)) &&
    match f
    case Guard(u, p1, p2, p3) =>
      && (p1.Some? ==> Loaded(d0, u, p1.value))
      && (p2.Some? ==> p1.Some? && Loaded(d0, p1.value, p2.value))
      && (p3.Some? ==> p3.value == d0.parent[u] || Far(d0, u, d.parent[u]))
    case LoadGrand(u, p) => Loaded(d0, u, p)
    case StoreHalf(u, g) => Far(d0, u, g)
    case Exit(u) => Far(d0, u, d.parent[u])
    case Found(r) => Far(d0, x, r)
    case _ => true
  }

  lemma FarStable(d0: Dsu, d: Dsu, e: Dsu, x: nat, f: Find)
    requires d0.Valid() && d.Size() == e.Size() == d0.Size() && Settles(d0, d, e) && x < d0.Size() && FarFind(d0, d, x, f)
    ensures FarFind(d0, e, x, f)
  {
  }

  lemma FarGuard(d0: Dsu, d: Dsu, x: nat, f: Find, pick: nat)
    requires AllLoaded(d0, d) && x < d0.Size() && f.Guard? && FarFind(d0, d, x, f)
    ensures FarFind(d0, d, x, GuardStep(d, f, pick))
  {
    if f.p2.Some? && f.p2 == f.p3 {
      LoadedTwice(d0, f.u, f.p1.value, f.p2.value);
    }
  }

  /** Every load and store keeps this, and what others rely on. */
  lemma FarStep(d0: Dsu, d: Dsu, x: nat, f: Find, pick: nat)
    requires AllLoaded(d0, d) && x < d0.Size() && FarFind(d0, d, x, f) && FindInv(d, x, f) && !f.Found?
    ensures var (e, g) := FindStep(d, f, pick); AllLoaded(d0, e) && Settles(d0, d, e) && FarFind(d0, e, x, g)
  {
    FindStepKeeps(d, x, f, pick);
    match f
    case Guard(_, _, _, _) => FarGuard(d0, d, x, f, pick);
    case LoadGrand(u, p) => LoadedTwice(d0, u, p, d.parent[p]);
    case Advance(u) =>
      LoadedOnWay(d0, u, d.parent[u]);
      WayTrans(d0, x, u, d.parent[u]);
    case Exit(u) => FarFrom(d0, x, u, d.parent[u]);
    case _ =>
  }

  lemma FarStart(d: Dsu, x: nat)
    requires d.Valid() && x < d.Size()
    ensures AllLoaded(d, d) && FarFind(d, d, x, StartFind(x))
  {
  }

  // Any number of searches

  ghost predicate AllFar(d0: Dsu, s: Finders)
    requires Ok(s)
  {
    AllLoaded(d0, s.d) && forall t: nat | t < |s.finds| :: FarFind(d0, s.d, s.starts[t], s.finds[t])
  }

  lemma AllFarStep(d0: Dsu, s: Finders, who: nat, pick: nat)
    requires Ok(s) && AllFar(d0, s)
    ensures AllFar(d0, Step(s, who, pick))
  {
    if who < |s.finds| && !s.finds[who].Found? {
      FarStep(d0, s.d, s.starts[who], s.finds[who], pick);
      var r := Step(s, who, pick);
      forall t: nat | t < |r.finds|
        ensures FarFind(d0, r.d, r.starts[t], r.finds[t])
      {
        FarStable(d0, s.d, r.d, s.starts[t], s.finds[t]);
      }
    }
  }

  lemma {:induction false} FarRuns(d: Dsu, starts: seq<nat>, schedule: seq<(nat, nat)>)
    requires d.Valid() && forall t: nat | t < |starts| :: starts[t] < d.Size()
    ensures AllFar(d, After(Begin(d, starts), schedule))
  {
    if schedule == [] {
      forall t: nat | t < |starts|
        ensures FarFind(d, d, starts[t], StartFind(starts[t]))
      {
        FarStart(d, starts[t]);
      }
    } else {
      var m := |schedule| - 1;
      FarRuns(d, starts, schedule[..m]);
      AllFarStep(d, After(Begin(d, starts), schedule[..m]), schedule[m].0, schedule[m].1);
    }
  }

  /**
   * No schedule makes a search stop short: whatever it returns is a root, or at least two links
   * above its start in the forest as it was before the searches.
   */
  lemma NeverShort(d: Dsu, starts: seq<nat>, schedule: seq<(nat, nat)>, t: nat)
    requires d.Valid() && (forall i: nat | i < |starts| :: starts[i] < d.Size()) && t < |starts|
    requires After(Begin(d, starts), schedule).finds[t].Found?
    ensures var r := After(Begin(d, starts), schedule).finds[t].r;
      && Far(d, starts[t], r) && r < d.Size() && d.SameSet(r, starts[t])
      && (d.IsRoot(r) || (!d.IsRoot(d.parent[starts[t]]) && r != starts[t] && r != d.parent[starts[t]]))
  {
    FarRuns(d, starts, schedule);
    FarMeans(d, starts[t], After(Begin(d, starts), schedule).finds[t].r);
  }
}
