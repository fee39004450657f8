// How many threads the running sums of create_merge_instructions can stand, with partitions
// that may be empty (src/cc_sketch_alg.cpp, lines 423-436).

module RunningSums {
  import opened Counting
  import opened Partition

  /** What the single thread leaves in range_sums[t]: it reads the last index before partition t. */
  function RunningSum(raw: seq<nat>, threads: nat, t: nat): nat
    requires |raw| > 0 && t < threads
  {
    if t == 0 then 0 else
    PositiveStart(|raw|, threads, t);
    var cur := Start(|raw|, t, threads) - 1;
    StartLeq(|raw|, threads, PartitionOf(|raw|, cur, threads), cur);
    Total(raw[Start(|raw|, PartitionOf(|raw|, cur, threads), threads)..cur + 1]) + RunningSum(raw, threads, t - 1)
  }

  lemma PositiveStart(n: nat, threads: nat, t: nat)
    requires n > 0 && 0 < t <= threads
    ensures 0 < Start(n, t, threads) <= n
  {
    CeilLeq(n * t, threads, 0);
    Mono(1, t, n);
    Inside(n, threads, t);
  }

  ghost predicate SumRight(raw: seq<nat>, threads: nat, t: nat)
    requires |raw| > 0 && t < threads
  {
    Start(|raw|, t, threads) <= |raw| && RunningSum(raw, threads, t) == Total(raw[..Start(|raw|, t, threads)])
  }

  ghost predicate SumsRight(n: nat, threads: nat)
    requires n > 0
  {
    forall raw: seq<nat>, t: nat | |raw| == n && t < threads :: SumRight(raw, threads, t)
  }

  /** Starts that have kept rising, one index at a time or more. */
  lemma {:induction false} RisingStarts(n: nat, threads: nat, t: nat)
    requires n > 0 && t < threads && forall u: nat | u < t :: Start(n, u, threads) < Start(n, u + 1, threads)
    ensures Start(n, t, threads) >= t
  {
    if t > 0 {
      RisingStarts(n, threads, t - 1);
    }
  }

  lemma RisesUpTo(n: nat, threads: nat, t: nat)
    requires n > 0 && t + 1 < threads <= n + 1
    ensures Start(n, t, threads) < Start(n, t + 1, threads)
  {
    if threads <= n {
      NotEmpty(n, threads, t);
    } else {
      AllButOne(n, t);
      AllButOne(n, t + 1);
    }
  }

  lemma AllButOne(n: nat, t: nat)
    requires n > 0 && t <= n
    ensures Start(n, t, n + 1) == t
  {
    CeilLeq(n * t, n + 1, t);
    assert t * (n + 1) == n * t + t;
    if t > 0 {
      CeilLeq(n * t, n + 1, t - 1);
      assert (t - 1) * (n + 1) == n * t + t - n - 1;
    }
  }

  /** The index before partition t lies in partition t - 1 unless that one is empty. */
  lemma BeforeStart(n: nat, threads: nat, t: nat)
    requires n > 0 && 0 < t < threads && Start(n, t - 1, threads) < Start(n, t, threads)
    ensures PartitionOf(n, Start(n, t, threads) - 1, threads) == t - 1
  {
    var cur := Start(n, t, threads) - 1;
    StartLeq(n, threads, t - 1, cur);
    StartLeq(n, threads, t, cur);
  }

  lemma {:induction false} SumsUpTo(raw: seq<nat>, threads: nat, t: nat)
    requires |raw| > 0 && t < threads
    requires forall u: nat | u < t :: Start(|raw|, u, threads) < Start(|raw|, u + 1, threads)
    ensures SumRight(raw, threads, t)
  {
    if t == 0 {
      Ends(|raw|, threads);
    } else {
      SumsUpTo(raw, threads, t - 1);
      PositiveStart(|raw|, threads, t);
      BeforeStart(|raw|, threads, t);
      var lo, hi := Start(|raw|, t - 1, threads), Start(|raw|, t, threads);
      TotalSlice(raw, 0, lo, hi);
      assert raw[0..lo] == raw[..lo] && raw[0..hi] == raw[..hi];
    }
  }

  /** An empty partition t - 1 makes the sum for partition t count its predecessor twice. */
  lemma CountedTwice(n: nat, threads: nat, t: nat)
    requires n > 0 && t + 1 < threads && Start(n, t, threads) >= Start(n, t + 1, threads)
    requires forall u: nat | u < t :: Start(n, u, threads) < Start(n, u + 1, threads)
    ensures !SumsRight(n, threads)
  {
    var raw: seq<nat> := seq(n, _ => 1);
    SumsUpTo(raw, threads, t);
    StartsOrdered(n, threads, t);
    SumGrows(raw, threads, t);
    assert !SumRight(raw, threads, t + 1);
  }

  lemma SumGrows(raw: seq<nat>, threads: nat, t: nat)
    requires |raw| > 0 && t + 1 < threads && forall i: nat | i < |raw| :: raw[i] > 0
    ensures RunningSum(raw, threads, t + 1) > RunningSum(raw, threads, t)
  {
    var n := |raw|;
    PositiveStart(n, threads, t + 1);
    var cur := Start(n, t + 1, threads) - 1;
    StartLeq(n, threads, PartitionOf(n, cur, threads), cur);
    TotalOne(raw, Start(n, PartitionOf(n, cur, threads), threads), cur);
  }

  lemma StartsOrdered(n: nat, threads: nat, t: nat)
    requires n > 0 && t < threads
    ensures Start(n, t, threads) <= Start(n, t + 1, threads)
  {
    var x := Start(n, t + 1, threads);
    StartLeq(n, threads, t + 1, x);
    StartLeq(n, threads, t, x);
  }

  /** The running sums are right, whatever the counts, exactly up to one thread more than there are vertices. */
  lemma SumsRightIff(n: nat, threads: nat)
    requires n > 0 && threads > 0
    ensures SumsRight(n, threads) <==> threads <= n + 1
  {
    if threads <= n + 1 {
      forall raw: seq<nat>, t: nat | |raw| == n && t < threads
        ensures SumRight(raw, threads, t)
      {
        forall u: nat | u < t
          ensures Start(n, u, threads) < Start(n, u + 1, threads)
        {
          RisesUpTo(n, threads, u);
        }
        SumsUpTo(raw, threads, t);
      }
    } else {
      var t := FirstEmpty(n, threads);
      CountedTwice(n, threads, t);
    }
  }

  lemma FirstEmpty(n: nat, threads: nat) returns (t: nat)
    requires n > 0 && threads >= n + 2
    ensures t + 1 < threads && Start(n, t, threads) >= Start(n, t + 1, threads)
    ensures forall u: nat | u < t :: Start(n, u, threads) < Start(n, u + 1, threads)
  {
    t := 0;
    while t + 1 < threads && Start(n, t, threads) < Start(n, t + 1, threads)
      invariant t < threads
      invariant forall u: nat | u < t :: Start(n, u, threads) < Start(n, u + 1, threads)
    {
      t := t + 1;
    }
    RisingStarts(n, threads, t);
    Inside(n, threads, t);
  }
}
