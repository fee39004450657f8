// Splitting the vertices over threads, and finding the thread that owns the end of a
// component (src/cc_sketch_alg.cpp, include/cc_sketch_alg.h).

module Partition {
  import opened Words
  import opened Depths
  import opened Pairing

  function CeilDiv(a: nat, b: nat): nat
    requires b > 0
  {
    (a + b - 1) / b
  }

  /** First index of partition t when 0..n is divided between threads; partition t ends where t + 1 starts. */
  function Start(n: nat, t: nat, threads: nat): nat
    requires threads > 0
  {
    CeilDiv(n * t, threads)
  }

  /** get_partition_idx: the partition that holds idx. */
  function PartitionOf(n: nat, idx: nat, threads: nat): nat
    requires n > 0
  {
    idx * threads / n
  }

  lemma CeilLeq(a: nat, b: nat, x: nat)
    requires b > 0
    ensures CeilDiv(a, b) <= x <==> a <= x * b
  {
    var q := CeilDiv(a, b);
    var r := (a + b - 1) % b;
    assert a + b - 1 == q * b + r;
    if q <= x {
      Mono(q, x, b);
    } else {
      Mono(x + 1, q, b);
      assert (x + 1) * b == x * b + b;
    }
  }

  lemma FloorLeq(a: nat, b: nat, x: nat)
    requires b > 0
    ensures x <= a / b <==> x * b <= a
  {
    var q := a / b;
    assert a == q * b + a % b;
    if x <= q {
      Mono(x, q, b);
    } else {
      Mono(q + 1, x, b);
      assert (q + 1) * b == q * b + b;
    }
  }

  lemma Mono(a: nat, b: nat, c: nat)
    requires a <= b
    ensures a * c <= b * c
  {
  }

  lemma Ends(n: nat, threads: nat)
    requires threads > 0
    ensures Start(n, 0, threads) == 0 && Start(n, threads, threads) == n
  {
    CeilLeq(n * 0, threads, 0);
    CeilLeq(n * threads, threads, n);
    if n > 0 {
      CeilLeq(n * threads, threads, n - 1);
      assert (n - 1) * threads == n * threads - threads;
    }
  }

  lemma Inside(n: nat, threads: nat, t: nat)
    requires 1 <= threads && t <= threads
    ensures Start(n, t, threads) <= n
  {
    Mono(t, threads, n);
    CeilLeq(n * t, threads, n);
  }

  lemma NotEmpty(n: nat, threads: nat, t: nat)
    requires 1 <= threads <= n
    ensures Start(n, t, threads) < Start(n, t + 1, threads)
  {
    var s := Start(n, t, threads);
    CeilLeq(n * (t + 1), threads, s);
    assert n * (t + 1) == n * t + n;
    if s > 0 {
      CeilLeq(n * t, threads, s - 1);
      assert (s - 1) * threads == s * threads - threads;
    }
  }

  /** The partitions are consecutive, none is empty, and together they are 0..n. */
  lemma PartitionsTile(n: nat, threads: nat, t: nat)
    requires 1 <= threads <= n && t < threads
    ensures Start(n, 0, threads) == 0 && Start(n, threads, threads) == n
    ensures Start(n, t, threads) < Start(n, t + 1, threads) <= n
  {
    Ends(n, threads);
    NotEmpty(n, threads, t);
    Inside(n, threads, t + 1);
  }

  /** Partition bounds are the exact multiples of n / threads, rounded up; indices are divided by it, rounded down. */
  lemma PartitionExact(n: nat, threads: nat, t: nat, idx: nat)
    requires n > 0 && threads > 0
    ensures n * t <= Start(n, t, threads) * threads < n * t + threads
    ensures PartitionOf(n, idx, threads) * n <= idx * threads < PartitionOf(n, idx, threads) * n + n
  {
    var a, b := n * t + threads - 1, idx * threads;
    assert a == a / threads * threads + a % threads;
    assert b == b / n * n + b % n;
  }

  lemma StartLeq(n: nat, threads: nat, t: nat, idx: nat)
    requires n > 0 && threads > 0
    ensures Start(n, t, threads) <= idx <==> t <= PartitionOf(n, idx, threads)
  {
    CeilLeq(n * t, threads, idx);
    FloorLeq(idx * threads, n, t);
    Commute(n, t);
  }

  lemma Commute(a: nat, b: nat)
    ensures a * b == b * a
  {
  }

  /** get_partition_idx inverts get_ith_partition. */
  lemma PartitionOfInverse(n: nat, threads: nat, t: nat, idx: nat)
    requires 1 <= threads <= n && t < threads && idx < n
    ensures Start(n, t, threads) <= idx < Start(n, t + 1, threads) <==> PartitionOf(n, idx, threads) == t
    ensures PartitionOf(n, idx, threads) < threads
  {
    StartLeq(n, threads, t, idx);
    StartLeq(n, threads, t + 1, idx);
    StartLeq(n, threads, threads, idx);
    PartitionsTile(n, threads, 0);
  }

  /** With more threads than indices the last partition starts past the end; with fewer, never. */
  lemma LastStartIff(n: nat, threads: nat)
    requires n > 0 && threads > 0
    ensures Start(n, threads - 1, threads) == n <==> threads > n
  {
    CeilLeq(n * (threads - 1), threads, n - 1);
    OneLess(n, threads);
    Inside(n, threads, threads - 1);
  }

  lemma OneLess(n: nat, threads: nat)
    requires n > 0 && threads > 0
    ensures n * (threads - 1) <= (n - 1) * threads <==> threads <= n
  {
    assert n * (threads - 1) == n * threads - n;
    assert (n - 1) * threads == n * threads - threads;
  }

  /** No partition is empty exactly when there are at most as many threads as indices. */
  lemma NoneEmptyIff(n: nat, threads: nat)
    requires n > 0 && threads > 0
    ensures (forall t: nat | t < threads :: Start(n, t, threads) < Start(n, t + 1, threads)) <==> threads <= n
  {
    if threads <= n {
      forall t: nat | t < threads
        ensures Start(n, t, threads) < Start(n, t + 1, threads)
      {
        NotEmpty(n, threads, t);
      }
    } else {
      LastStartIff(n, threads);
      Ends(n, threads);
      assert !(Start(n, threads - 1, threads) < Start(n, threads - 1 + 1, threads));
    }
  }

  lemma StartMono(n: nat, threads: nat, s: nat, t: nat)
    requires 1 <= threads <= n && s <= t <= threads
    ensures Start(n, s, threads) <= Start(n, t, threads) <= n
  {
    var x := Start(n, t, threads);
    PartitionsTile(n, threads, 0);
    StartLeq(n, threads, t, n);
    StartLeq(n, threads, threads, n);
    StartLeq(n, threads, t, x);
    StartLeq(n, threads, s, x);
  }

  /** A vertex and the component it is merged into. */
  datatype MergeInstr = MergeInstr(root: nat, child: nat) {
    predicate Less(other: MergeInstr) {
      if root == other.root then child < other.child else root < other.root
    }
  }

  predicate Sorted(mi: seq<MergeInstr>) {
    forall i: nat, j: nat | i < j < |mi| :: mi[i].root <= mi[j].root
  }

  /** The last index of the block that i lies in. */
  function LastOf(mi: seq<MergeInstr>, i: nat): (l: nat)
    requires i < |mi|
    ensures i <= l < |mi| && (forall k | i <= k <= l :: mi[k].root == mi[i].root)
    ensures l + 1 == |mi| || mi[l + 1].root != mi[i].root
    decreases |mi| - i
  {
    if i + 1 < |mi| && mi[i + 1].root == mi[i].root then LastOf(mi, i + 1) else i
  }

  /** The first index of the block that i lies in. */
  function FirstOf(mi: seq<MergeInstr>, i: nat): (f: nat)
    requires i < |mi|
    ensures f <= i && (forall k | f <= k <= i :: mi[k].root == mi[i].root)
    ensures f == 0 || mi[f - 1].root != mi[i].root
  {
    if i > 0 && mi[i - 1].root == mi[i].root then FirstOf(mi, i - 1) else i
  }

  function Middle(min: nat, max: nat): (m: nat)
    requires min < max
    ensures min <= m < max
  {
    min + (max - min) / 2
  }

  /** Where the bisection of min..max for the end of a root's block stops. */
  function Bisected(mi: seq<MergeInstr>, root: nat, min: nat, max: nat): (m: nat)
    requires min <= max < |mi|
    ensures min <= m <= max
    decreases max - min
  {
    if min == max then min else
    var mid := Middle(min, max);
    if mi[mid].root <= root then Bisected(mi, root, mid + 1, max) else Bisected(mi, root, min, mid)
  }

  /** The index a binary search from minHint on finds for a root. */
  function LastIndex(mi: seq<MergeInstr>, root: nat, minHint: nat): (l: nat)
    requires minHint < |mi|
    ensures l < |mi|
  {
    var m := Bisected(mi, root, minHint, |mi| - 1);
    if mi[m].root != root && m > 0 then m - 1 else m
  }

  /** l is the last index whose root is at most the given one, which is its root. */
  predicate Divides(mi: seq<MergeInstr>, root: nat, l: nat) {
    && l < |mi| && mi[l].root == root
    && (forall i: nat | i <= l :: mi[i].root <= root) && (forall i: nat | l < i < |mi| :: mi[i].root > root)
  }

  lemma LastDivides(mi: seq<MergeInstr>, k: nat)
    requires Sorted(mi) && k < |mi|
    ensures Divides(mi, mi[k].root, LastOf(mi, k))
  {
    var l := LastOf(mi, k);
    forall i: nat | l < i < |mi|
      ensures mi[i].root > mi[k].root
    {
      assert mi[l + 1].root <= mi[i].root;
    }
  }

  lemma {:induction false} BisectedRight(mi: seq<MergeInstr>, root: nat, l: nat, min: nat, max: nat)
    requires Divides(mi, root, l) && min <= max < |mi| && min <= l + 1
    requires max == |mi| - 1 || max > l
    ensures var m := Bisected(mi, root, min, max); m == l + 1 || m == l == |mi| - 1
    decreases max - min
  {
    if min < max {
      var mid := Middle(min, max);
      if mi[mid].root <= root {
        BisectedRight(mi, root, l, mid + 1, max);
      } else {
        BisectedRight(mi, root, l, min, mid);
      }
    }
  }

  /** From any hint not after it, the search finds the last index of the root. */
  lemma LastIndexRight(mi: seq<MergeInstr>, k: nat, minHint: nat)
    requires Sorted(mi) && k < |mi| && minHint <= LastOf(mi, k)
    ensures LastIndex(mi, mi[k].root, minHint) == LastOf(mi, k)
  {
    LastDivides(mi, k);
    LastIndexDivides(mi, mi[k].root, LastOf(mi, k), minHint);
  }

  lemma LastIndexDivides(mi: seq<MergeInstr>, root: nat, l: nat, minHint: nat)
    requires Divides(mi, root, l) && minHint <= l
    ensures LastIndex(mi, root, minHint) == l
  {
    BisectedRight(mi, root, l, minHint, |mi| - 1);
    StepBack(mi, root, l, Bisected(mi, root, minHint, |mi| - 1));
  }

  lemma StepBack(mi: seq<MergeInstr>, root: nat, l: nat, m: nat)
    requires Divides(mi, root, l) && m < |mi| && (m == l + 1 || m == l == |mi| - 1)
    ensures (if mi[m].root != root && m > 0 then m - 1 else m) == l
  {
  }

  /** The largest node id is never a child, so a target with it compares above every entry of its root. */
  lemma TargetAbove(m: MergeInstr, root: nat)
    requires m.child < NODE_LIMIT - 1
    ensures m.Less(MergeInstr(root, NODE_LIMIT - 1)) <==> m.root <= root
  {
  }

  /** Taking either half changes nothing about where the bisection stops. */
  lemma BisectedTurn(mi: seq<MergeInstr>, root: nat, min: nat, max: nat)
    requires min < max < |mi| && mi[Middle(min, max)].child < NODE_LIMIT - 1
    ensures mi[Middle(min, max)].Less(MergeInstr(root, NODE_LIMIT - 1))
            ==> Bisected(mi, root, min, max) == Bisected(mi, root, Middle(min, max) + 1, max)
    ensures !mi[Middle(min, max)].Less(MergeInstr(root, NODE_LIMIT - 1))
            ==> Bisected(mi, root, min, max) == Bisected(mi, root, min, Middle(min, max))
  {
    TargetAbove(mi[Middle(min, max)], root);
  }

  /** The binary search over the instructions from a hint on. */
  method SearchLast(mi: seq<MergeInstr>, root: nat, minHint: nat) returns (last: nat)
    requires minHint < |mi|
    requires forall i: nat | i < |mi| :: mi[i].child < NODE_LIMIT - 1
    ensures last == Bisected(mi, root, minHint, |mi| - 1)
  {
    var max := |mi| - 1;
    last := minHint;
    while last < max
      invariant last <= max < |mi|
      invariant Bisected(mi, root, last, max) == Bisected(mi, root, minHint, |mi| - 1)
    {
      var mid := Middle(last, max);
      BisectedTurn(mi, root, last, max);
      if mi[mid].Less(MergeInstr(root, NODE_LIMIT - 1)) {
        last := mid + 1;
      } else {
        max := mid;
      }
    }
  }

  lemma PartitionBelow(n: nat, threads: nat, idx: nat)
    requires 1 <= threads <= n && idx < n
    ensures PartitionOf(n, idx, threads) < threads
  {
    PartitionOfInverse(n, threads, 0, idx);
  }

  /** The partition of the last instruction of a root that occurs at k. */
  method FindLastPartitionOfRoot(mi: seq<MergeInstr>, root: nat, minHint: nat, threads: nat, ghost k: nat)
    returns (owner: nat)
    requires Sorted(mi) && 1 <= threads <= |mi|
    requires forall i: nat | i < |mi| :: mi[i].child < NODE_LIMIT - 1
    requires k < |mi| && mi[k].root == root && minHint <= LastOf(mi, k)
    ensures LastIndex(mi, root, minHint) == LastOf(mi, k)
    ensures owner == PartitionOf(|mi|, LastIndex(mi, root, minHint), threads)
    ensures owner < threads
  {
    LastDivides(mi, k);
    BisectedRight(mi, root, LastOf(mi, k), minHint, |mi| - 1);
    LastIndexRight(mi, k, minHint);
    var last := SearchLast(mi, root, minHint);
    if mi[last].root != root {
      last := last - 1;
    }
    PartitionBelow(|mi|, threads, last);
    owner := PartitionOf(|mi|, last, threads);
  }
}
