// The lock-free merge of two elements whose parents are roots, with no other thread at work:
// nothing but the swap is ever stored (include/dsu.h, lines 145-167).

module CalmMerge {
  import opened DsuSpec
  import opened DsuConcurrent

  /** A search from x that will end at x's parent. */
  predicate Still(d: Dsu, x: nat, f: Find)
    requires d.Valid() && x < d.Size()
  {
    match f
    case Guard(u, p1, p2, p3) =>
      && u == x && (p2.Some? ==> p1.Some?) && (p1.Some? ==> p1.value == d.parent[x])
      && (p2.Some? ==> p2.value == d.parent[x]) && (p3.Some? ==> p3.value == d.parent[x])
    case Exit(u) => u == x
    case Found(r) => r == d.parent[x]
    case _ => false
  }

  lemma StillStep(d: Dsu, x: nat, f: Find, pick: nat)
    requires d.Valid() && x < d.Size() && d.IsRoot(d.parent[x]) && Still(d, x, f)
    ensures InRange(d.Size(), f) && FindStep(d, f, pick).0 == d && Still(d, x, FindStep(d, f, pick).1)
  {
  }

  /** A merge of x and y before its swap. */
  predicate Calm(d: Dsu, x: nat, y: nat, m: Merge)
    requires d.Valid() && x < d.Size() && y < d.Size()
  {
    match m
    case Loop(a, b) => a == x && b == y
    case FindFirst(f, other) => (Still(d, x, f) && other == y) || (Still(d, y, f) && other == x)
    case FindSecond(f, other) => (Still(d, y, f) && other == d.parent[x]) || (Still(d, x, f) && other == d.parent[y])
    case Cas(a, b) =>
      && ((a == d.parent[x] && b == d.parent[y]) || (a == d.parent[y] && b == d.parent[x]))
      && a != b && d.Above(a, b)
    case Finished(merged, _, _) => !merged && d.parent[x] == d.parent[y]
  }

  /** What such a merge leaves behind. */
  function Joint(d: Dsu, x: nat, y: nat): (e: Dsu)
    requires d.Valid() && x < d.Size() && y < d.Size()
    ensures e.prio == d.prio && e.Size() == d.Size()
  {
    var a, b := d.parent[x], d.parent[y];
    if a == b then d
    else if d.Above(a, b) then d.(parent := d.parent[b := a])
    else d.(parent := d.parent[a := b])
  }

  /** One step of it, with any choices but a spurious failure. */
  lemma CalmStep(d: Dsu, x: nat, y: nat, m: Merge, c: Choice)
    requires d.Valid() && x < d.Size() && y < d.Size() && d.IsRoot(d.parent[x]) && d.IsRoot(d.parent[y])
    requires Calm(d, x, y, m) && !m.Finished? && !c.spurious
    ensures MergeInRange(d.Size(), m)
    ensures var (e, k) := MergeStep(d, m, c);
      if Linked(m, k) then e == Joint(d, x, y) else e == d && Calm(d, x, y, k)
  {
    match m
    case FindFirst(f, other) =>
      if Still(d, x, f) {
        StillStep(d, x, f, c.pick);
      } else {
        StillStep(d, y, f, c.pick);
      }
    case FindSecond(f, other) =>
      if Still(d, y, f) {
        StillStep(d, y, f, c.pick);
      } else {
        StillStep(d, x, f, c.pick);
      }
    case _ =>
  }
}
