// The single-threaded union-find (include/dsu.h, class DisjointSetUnion).

module DsuSequential {
  import opened DsuSpec

  /** DSUMergeRet: root and child are both 0 when nothing was merged. */
  datatype MergeRet = MergeRet(merged: bool, root: nat, child: nat)

  lemma JoinedThroughShortcuts(d: Dsu, mid: Dsu, e: Dsu, u: nat, v: nat)
    requires SameRoots(d, mid) && u < d.Size() && v < d.Size() && Joined(mid, e, u, v) && Evolves(mid, e)
    ensures Joined(d, e, u, v) && Evolves(d, e)
  {
    forall x: nat, y: nat | x < d.Size() && y < d.Size()
      ensures e.SameSet(x, y) <==> Bridged(d, u, v, x, y)
    {
      assert Bridged(mid, u, v, x, y) <==> Bridged(d, u, v, x, y);
    }
  }

  /** Linking the two roots after shortcuts joins the sets of the original arguments. */
  lemma MergeLinks(d: Dsu, mid: Dsu, a: nat, b: nat, u: nat, v: nat)
    requires SameRoots(d, mid) && u < d.Size() && v < d.Size() && a != b
    requires (a == d.Root(u) && b == d.Root(v)) || (a == d.Root(v) && b == d.Root(u))
    requires mid.Above(a, b)
    ensures var e := mid.(parent := mid.parent[b := a]);
      Evolves(d, e) && Joined(d, e, u, v) && b in d.Roots() && e.Roots() == d.Roots() - {b}
  {
    var e := mid.(parent := mid.parent[b := a]);
    LinkJoins(mid, a, b);
    JoinedElsewhere(mid, e, a, b, u, v);
    assert mid.Roots() == d.Roots();
    JoinedThroughShortcuts(d, mid, e, u, v);
  }

  class DisjointSetUnion {
    const parent: array<nat>
    const priority: array<nat>

    ghost function Val(): Dsu
      reads parent, priority
    {
      Dsu(priority[..], parent[..])
    }

    ghost predicate Valid()
      reads parent, priority
    {
      parent != priority && Val().Valid() && priority.Length == parent.Length &&
      forall i | 0 <= i < parent.Length :: parent[i] < parent.Length
    }

    /** The priorities stand for the values drawn from the random generator. */
    constructor (prio: seq<nat>)
      ensures Valid() && fresh(parent) && fresh(priority)
      ensures Val() == Singletons(prio)
    {
      parent := new nat[|prio|](i => i);
      priority := new nat[|prio|](i requires 0 <= i < |prio| => prio[i]);
      new;
      assert Val() == Singletons(prio);
    }

    method FindRoot(u: nat) returns (r: nat)
      requires Valid() && u < parent.Length
      modifies parent
      ensures Valid() && SameRoots(old(Val()), Val())
      ensures r == Val().Root(u) == old(Val()).Root(u)
      ensures Val() == Halved(old(Val()), u)
    {
      var v: nat := u;
      while parent[parent[v]] != parent[v]
        invariant v < parent.Length && Valid() && priority[..] == old(priority[..])
        invariant SameRoots(old(Val()), Val())
        invariant Val().Root(v) == old(Val()).Root(u)
        invariant Halved(Val(), v) == Halved(old(Val()), u)
        decreases old(Val()).Rank(v)
      {
        ghost var before := Val();
        var w := parent[parent[v]];
        HalveKeepsSets(before, v, w);
        RankDrops(old(Val()), w, v);
        parent[v] := w;
        assert Val() == Shortcut(before, v);
        v := parent[v];
      }
      r := parent[v];
    }

    method Merge(u: nat, v: nat) returns (ret: MergeRet)
      requires Valid() && u < parent.Length && v < parent.Length
      modifies parent
      ensures Valid() && Evolves(old(Val()), Val())
      ensures ret.merged <==> !old(Val()).SameSet(u, v)
      ensures Joined(old(Val()), Val(), u, v)
      ensures ret.merged ==>
        {ret.root, ret.child} == {old(Val()).Root(u), old(Val()).Root(v)} &&
        ret.child in old(Val()).Roots() && Val().Roots() == old(Val()).Roots() - {ret.child}
      ensures !ret.merged ==> SameRoots(old(Val()), Val()) && Val().Roots() == old(Val()).Roots()
    {
      ghost var start := Val();
      var a := FindRoot(u);
      ghost var half := Val();
      var b := FindRoot(v);
      ghost var mid := Val();
      SameRootsTrans(start, half, mid);
      if a == b {
        SameRootsJoin(start, mid, u, v);
        return MergeRet(false, 0, 0);
      }
      a, b := OrderEdge(a, b);
      MergeLinks(start, mid, a, b, u, v);
      parent[b] := a;
      assert Val() == mid.(parent := mid.parent[b := a]);
      return MergeRet(true, a, b);
    }

    /** Puts the element that stays a root first. */
    method OrderEdge(u: nat, v: nat) returns (a: nat, b: nat)
      requires Valid() && u < parent.Length && v < parent.Length && u != v
      ensures {a, b} == {u, v} && Val().Above(a, b)
      ensures priority[a] > priority[b] || (priority[a] == priority[b] && a < b)
      ensures (a == u && b == v) || (a == v && b == u)
    {
      a, b := u, v;
      if priority[a] == priority[b] && a > b {
        a, b := b, a;
      }
      if priority[a] < priority[b] {
        a, b := b, a;
      }
    }

    method Reset()
      requires Valid()
      modifies parent
      ensures Valid() && Val() == Singletons(old(priority[..]))
    {
      for i := 0 to parent.Length
        invariant forall k | 0 <= k < i :: parent[k] == k
        invariant priority[..] == old(priority[..])
      {
        parent[i] := i;
      }
      assert Val() == Singletons(priority[..]);
    }
  }
}
