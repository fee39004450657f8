// create_merge_instructions (src/cc_sketch_alg.cpp, lines 382-462): a parallel counting
// sort of the vertices by the root of their component. Between two barriers the
// scheduler picks, step by step, any thread that is not finished.

module MergeInstructions {
  import opened Counting
  import opened DsuSpec
  import opened DsuConcurrent
  import opened DsuFindRace
  import opened DsuFar
  import opened Jobs
  import opened Gather
  import opened GatherRuns
  import opened Partition

  // What the phase leaves behind

  /** Where position k goes inside the block of its label. */
  function Offset(j: Job, lab: seq<nat>, idx: seq<map<nat, nat>>, k: nat): nat
    requires j.Valid() && |lab| == j.N() && |idx| == j.Threads() && k < j.N() && lab[k] in idx[j.owner[k]]
  {
    idx[j.owner[k]][lab[k]] + |Positions(lab, j.lo[j.owner[k]], k, lab[k])|
  }

  /** Every label's block has room for exactly its positions, each at its own offset. */
  ghost predicate Blocks(j: Job, lab: seq<nat>, idx: seq<map<nat, nat>>, cc: seq<nat>) {
    && j.Valid() && |lab| == |cc| == j.N() && |idx| == j.Threads()
    && (forall k: nat | k < j.N() :: lab[k] < j.N() && lab[k] in idx[j.owner[k]])
    && (forall r: nat | r < j.N() :: cc[r] == |Positions(lab, 0, j.N(), r)|)
    && (forall k: nat | k < j.N() :: Offset(j, lab, idx, k) < cc[lab[k]])
    && (forall k: nat, m: nat | k < j.N() && m < j.N() && k != m && lab[k] == lab[m] ::
          Offset(j, lab, idx, k) != Offset(j, lab, idx, m))
  }

  lemma OffsetInShare(j: Job, lab: seq<nat>, k: nat)
    requires j.Valid() && |lab| == j.N() && k < j.N()
    ensures |Positions(lab, j.lo[j.owner[k]], k, lab[k])| < Share(j, lab, j.owner[k], lab[k])
  {
    var t := j.owner[k];
    var a, b := Positions(lab, j.lo[t], k, lab[k]), Positions(lab, j.lo[t], j.lo[t + 1], lab[k]);
    assert k in b && k !in a;
    SubsetCard(a, b - {k});
    assert |b - {k}| == |b| - 1;
  }

  lemma EarlierSmaller(lab: seq<nat>, lo: nat, k: nat, m: nat)
    requires lo <= k < m < |lab| && lab[k] == lab[m]
    ensures |Positions(lab, lo, k, lab[k])| < |Positions(lab, lo, m, lab[m])|
  {
    var a, b := Positions(lab, lo, k, lab[k]), Positions(lab, lo, m, lab[m]);
    assert k in b && k !in a;
    SubsetCard(a, b - {k});
    assert |b - {k}| == |b| - 1;
  }

  lemma FinishedLabels(j: Job, d: Dsu, s: State, k: nat)
    requires GatherInv(j, d, s) && AllIdle(s) && k < j.N()
    ensures LabelOk(s.d, j.child[k], s.lab[k]) && s.lab[k] in s.idx[j.owner[k]]
  {
    var t := j.owner[k];
    assert WorkerInv(j, s, t) && Idle(s.ws[t]);
    assert Labelled(j, s, k);
    assert k in Range(j.lo[t], j.lo[t + 1]);
    assert s.lab[k] in Labels(s.lab, j.lo[t], j.lo[t + 1]);
  }

  lemma FinishedOffsets(j: Job, d: Dsu, s: State, k: nat, m: nat)
    requires GatherInv(j, d, s) && AllIdle(s)
    requires k < j.N() && m < j.N() && k < m && s.lab[k] == s.lab[m]
    requires s.lab[k] in s.idx[j.owner[k]] && s.lab[m] in s.idx[j.owner[m]] && s.lab[k] < j.N()
    ensures Offset(j, s.lab, s.idx, k) != Offset(j, s.lab, s.idx, m)
  {
    var t, u := j.owner[k], j.owner[m];
    if t == u {
      EarlierSmaller(s.lab, j.lo[t], k, m);
    } else {
      OffsetInShare(j, s.lab, k);
      OffsetInShare(j, s.lab, m);
      assert Apart(j, s, t, u, s.lab[k]);
    }
  }

  lemma FinishedBlocks(j: Job, d: Dsu, s: State)
    requires GatherInv(j, d, s) && AllIdle(s)
    ensures Blocks(j, s.lab, s.idx, s.cc)
  {
    forall k: nat | k < j.N()
      ensures s.lab[k] < j.N() && s.lab[k] in s.idx[j.owner[k]]
    {
      FinishedLabels(j, d, s, k);
    }
    forall r: nat | r < j.N()
      ensures s.cc[r] == |Positions(s.lab, 0, j.N(), r)|
    {
      assert Counted(j, s, r);
      assert Reserved(j, s.lab, s.idx, r) == Positions(s.lab, 0, j.N(), r);
    }
    forall k: nat | k < j.N()
      ensures Offset(j, s.lab, s.idx, k) < s.cc[s.lab[k]]
    {
      OffsetInShare(j, s.lab, k);
      assert Below(j, s, j.owner[k], s.lab[k]);
    }
    forall k: nat, m: nat | k < j.N() && m < j.N() && k != m && s.lab[k] == s.lab[m]
      ensures Offset(j, s.lab, s.idx, k) != Offset(j, s.lab, s.idx, m)
    {
      FinishedOffsets(j, d, s, if k < m then k else m, if k < m then m else k);
    }
  }

  // The prefix sum (lines 421-443)

  ghost predicate Summed(j: Job, raw: seq<nat>, cc: seq<nat>, pos: seq<nat>, i: nat)
    requires j.Valid() && |raw| == |cc| == j.N() && |pos| == j.Threads() && i < j.N()
  {
    cc[i] == if i < pos[j.owner[i]] then Total(raw[j.lo[j.owner[i]]..i + 1]) else raw[i]
  }

  /** Thread t has summed its partition up to pos[t]. */
  ghost predicate AllSummed(j: Job, raw: seq<nat>, cc: seq<nat>, pos: seq<nat>) {
    && j.Valid() && |raw| == |cc| == j.N() && |pos| == j.Threads()
    && (forall t: nat | t < j.Threads() :: j.lo[t] < pos[t] <= j.lo[t + 1])
    && (forall i: nat | i < j.N() :: Summed(j, raw, cc, pos, i))
  }

  lemma SumStepAt(j: Job, raw: seq<nat>, cc: seq<nat>, pos: seq<nat>, cc': seq<nat>, pos': seq<nat>, t: nat, i: nat)
    requires AllSummed(j, raw, cc, pos) && t < j.Threads() && pos[t] < j.lo[t + 1] <= j.N() && i < j.N()
    requires cc' == cc[pos[t] := cc[pos[t]] + cc[pos[t] - 1]] && pos' == pos[t := pos[t] + 1]
    ensures Summed(j, raw, cc', pos', i)
  {
    var p := pos[t];
    assert j.owner[p] == t && j.owner[p - 1] == t;
    assert Summed(j, raw, cc, pos, i);
    if i == p {
      assert Summed(j, raw, cc, pos, p - 1);
      TotalOne(raw, j.lo[t], p);
    }
  }

  lemma SumStep(j: Job, raw: seq<nat>, cc: seq<nat>, pos: seq<nat>, t: nat)
    requires AllSummed(j, raw, cc, pos) && t < j.Threads() && pos[t] < j.lo[t + 1]
    ensures 0 < pos[t] < j.N()
    ensures AllSummed(j, raw, cc[pos[t] := cc[pos[t]] + cc[pos[t] - 1]], pos[t := pos[t] + 1])
  {
    var p := pos[t];
    assert j.lo[t] < j.lo[t + 1] <= j.N();
    var cc', pos' := cc[p := cc[p] + cc[p - 1]], pos[t := p + 1];
    forall i: nat | i < j.N()
      ensures Summed(j, raw, cc', pos', i)
    {
      SumStepAt(j, raw, cc, pos, cc', pos', t, i);
    }
  }

  lemma SumStart(j: Job, raw: seq<nat>, pos: seq<nat>)
    requires j.Valid() && |raw| == j.N() && |pos| == j.Threads()
    requires forall t: nat | t < j.Threads() :: pos[t] == j.lo[t] + 1
    ensures AllSummed(j, raw, raw, pos)
  {
    forall t: nat | t < j.Threads()
      ensures j.lo[t] < pos[t] <= j.lo[t + 1]
    {
      assert j.lo[t] < j.lo[t + 1];
    }
    forall i: nat | i < j.N()
      ensures Summed(j, raw, raw, pos, i)
    {
      if i == j.lo[j.owner[i]] {
        TotalOne(raw, i, i);
      }
    }
  }

  lemma SumEnd(j: Job, raw: seq<nat>, cc: seq<nat>, pos: seq<nat>)
    requires AllSummed(j, raw, cc, pos) && forall t: nat | t < j.Threads() :: pos[t] >= j.lo[t + 1]
    ensures forall i: nat | i < j.N() :: cc[i] == Total(raw[j.lo[j.owner[i]]..i + 1])
  {
    forall i: nat | i < j.N()
      ensures cc[i] == Total(raw[j.lo[j.owner[i]]..i + 1])
    {
      assert Summed(j, raw, cc, pos, i);
    }
  }

  /** Each thread sums its own partition in place, in any interleaving. */
  method LocalPrefixSums(j: Job, raw: seq<nat>) returns (cc: seq<nat>)
    requires j.Valid() && |raw| == j.N()
    ensures |cc| == |raw|
    ensures forall i: nat | i < j.N() :: cc[i] == Total(raw[j.lo[j.owner[i]]..i + 1])
  {
    cc := raw;
    var pos := seq(j.Threads(), t requires 0 <= t < j.Threads() => j.lo[t] + 1);
    SumStart(j, raw, pos);
    while exists t: nat :: t < j.Threads() && pos[t] < j.lo[t + 1]
      invariant AllSummed(j, raw, cc, pos)
      decreases Total(LeftOver(j, pos))
    {
      var t: nat :| t < j.Threads() && pos[t] < j.lo[t + 1];
      SumStep(j, raw, cc, pos, t);
      LeftOverDrops(j, pos, t);
      cc := cc[pos[t] := cc[pos[t]] + cc[pos[t] - 1]];
      pos := pos[t := pos[t] + 1];
    }
    SumEnd(j, raw, cc, pos);
  }

  function LeftOver(j: Job, pos: seq<nat>): seq<nat>
    requires j.Valid() && |pos| == j.Threads()
  {
    seq(j.Threads(), t requires 0 <= t < j.Threads() => if pos[t] < j.lo[t + 1] then j.lo[t + 1] - pos[t] else 0)
  }

  lemma LeftOverDrops(j: Job, pos: seq<nat>, t: nat)
    requires j.Valid() && |pos| == j.Threads() && t < j.Threads() && pos[t] < j.lo[t + 1]
    ensures Total(LeftOver(j, pos[t := pos[t] + 1])) < Total(LeftOver(j, pos))
  {
    var a := LeftOver(j, pos);
    assert LeftOver(j, pos[t := pos[t] + 1]) == a[t := a[t] - 1];
    TotalUpdate(a, t, a[t] - 1);
  }

  /** The single thread between the barriers: the sum of everything before each partition. */
  method RangeSums(j: Job, raw: seq<nat>, cc: seq<nat>) returns (sums: seq<nat>)
    requires j.Valid() && |raw| == |cc| == j.N()
    requires forall i: nat | i < j.N() :: cc[i] == Total(raw[j.lo[j.owner[i]]..i + 1])
    ensures |sums| == j.Threads()
    ensures forall t: nat | t < j.Threads() :: sums[t] == Total(raw[..j.lo[t]])
  {
    sums := seq(j.Threads(), _ => 0);
    assert raw[..j.lo[0]] == [];
    for t := 1 to j.Threads()
      invariant |sums| == j.Threads()
      invariant forall u: nat | u < t :: sums[u] == Total(raw[..j.lo[u]])
    {
      var cur := j.lo[t] - 1;
      assert j.lo[t - 1] < j.lo[t] && j.owner[cur] == t - 1;
      TotalSlice(raw, 0, j.lo[t - 1], j.lo[t]);
      sums := sums[t := cc[cur] + sums[t - 1]];
    }
  }

  ghost predicate Shifted(j: Job, local: seq<nat>, sums: seq<nat>, cc: seq<nat>, pos: seq<nat>, i: nat)
    requires j.Valid() && |local| == |cc| == j.N() && |pos| == |sums| == j.Threads() && i < j.N()
  {
    cc[i] == local[i] + (if i < pos[j.owner[i]] then sums[j.owner[i]] else 0)
  }

  /** Thread t has added its offset up to pos[t]. */
  ghost predicate AllShifted(j: Job, local: seq<nat>, sums: seq<nat>, cc: seq<nat>, pos: seq<nat>) {
    && j.Valid() && |local| == |cc| == j.N() && |pos| == |sums| == j.Threads()
    && (forall t: nat | t < j.Threads() :: j.lo[t] <= pos[t] <= j.lo[t + 1])
    && (forall i: nat | i < j.N() :: Shifted(j, local, sums, cc, pos, i))
  }

  lemma ShiftStep(j: Job, local: seq<nat>, sums: seq<nat>, cc: seq<nat>, pos: seq<nat>, t: nat)
    requires AllShifted(j, local, sums, cc, pos) && t < j.Threads() && pos[t] < j.lo[t + 1]
    ensures pos[t] < j.N()
    ensures AllShifted(j, local, sums, cc[pos[t] := cc[pos[t]] + sums[t]], pos[t := pos[t] + 1])
  {
    var p := pos[t];
    assert j.lo[t] < j.lo[t + 1] <= j.N();
    var cc', pos' := cc[p := cc[p] + sums[t]], pos[t := p + 1];
    assert j.owner[p] == t;
    assert Shifted(j, local, sums, cc, pos, p);
    forall i: nat | i < j.N()
      ensures Shifted(j, local, sums, cc', pos', i)
    {
      assert Shifted(j, local, sums, cc, pos, i);
    }
  }

  lemma ShiftStart(j: Job, local: seq<nat>, sums: seq<nat>, pos: seq<nat>)
    requires j.Valid() && |local| == j.N() && |pos| == |sums| == j.Threads() && sums[0] == 0
    requires forall t: nat | t < j.Threads() :: pos[t] == if t == 0 then j.lo[1] else j.lo[t]
    ensures AllShifted(j, local, sums, local, pos)
  {
    forall t: nat | t < j.Threads()
      ensures j.lo[t] <= pos[t] <= j.lo[t + 1]
    {
      assert j.lo[t] < j.lo[t + 1];
    }
    forall i: nat | i < j.N()
      ensures Shifted(j, local, sums, local, pos, i)
    {
    }
  }

  /** Each thread but the first shifts its partition, in any interleaving. */
  method FinishPrefixSums(j: Job, raw: seq<nat>, local: seq<nat>, sums: seq<nat>) returns (cc: seq<nat>)
    requires j.Valid() && |raw| == |local| == j.N() && |sums| == j.Threads()
    requires forall i: nat | i < j.N() :: local[i] == Total(raw[j.lo[j.owner[i]]..i + 1])
    requires forall t: nat | t < j.Threads() :: sums[t] == Total(raw[..j.lo[t]])
    ensures |cc| == |raw|
    ensures forall i: nat | i < j.N() :: cc[i] == Total(raw[..i + 1])
  {
    cc := local;
    var pos := seq(j.Threads(), t requires 0 <= t < j.Threads() => if t == 0 then j.lo[1] else j.lo[t]);
    assert raw[..j.lo[0]] == [];
    ShiftStart(j, local, sums, pos);
    while exists t: nat :: t < j.Threads() && pos[t] < j.lo[t + 1]
      invariant AllShifted(j, local, sums, cc, pos)
      decreases Total(LeftOver(j, pos))
    {
      var t: nat :| t < j.Threads() && pos[t] < j.lo[t + 1];
      ShiftStep(j, local, sums, cc, pos, t);
      LeftOverDrops(j, pos, t);
      cc := cc[pos[t] := cc[pos[t]] + sums[t]];
      pos := pos[t := pos[t] + 1];
    }
    forall i: nat | i < j.N()
      ensures cc[i] == Total(raw[..i + 1])
    {
      ShiftedTotal(j, raw, local, sums, cc, pos, i);
    }
  }

  lemma ShiftedTotal(j: Job, raw: seq<nat>, local: seq<nat>, sums: seq<nat>, cc: seq<nat>, pos: seq<nat>, i: nat)
    requires j.Valid() && |raw| == |local| == |cc| == j.N() && |pos| == |sums| == j.Threads() && i < j.N()
    requires local[i] == Total(raw[j.lo[j.owner[i]]..i + 1])
    requires sums[j.owner[i]] == Total(raw[..j.lo[j.owner[i]]])
    requires Shifted(j, local, sums, cc, pos, i) && pos[j.owner[i]] >= j.lo[j.owner[i] + 1]
    ensures cc[i] == Total(raw[..i + 1])
  {
    TotalSlice(raw, 0, j.lo[j.owner[i]], i + 1);
    assert raw[0..i + 1] == raw[..i + 1] && raw[0..j.lo[j.owner[i]]] == raw[..j.lo[j.owner[i]]];
  }

  // The write-back (lines 445-460)

  /** The cell position k is written to. */
  function Cell(j: Job, lab: seq<nat>, idx: seq<map<nat, nat>>, pre: seq<nat>, k: nat): nat
    requires j.Valid() && |lab| == |pre| == j.N() && |idx| == j.Threads() && k < j.N()
    requires lab[k] < j.N() && lab[k] in idx[j.owner[k]]
  {
    (if lab[k] > 0 then pre[lab[k] - 1] else 0) + Offset(j, lab, idx, k)
  }

  ghost predicate Prefixed(cc: seq<nat>, pre: seq<nat>) {
    |pre| == |cc| && forall i: nat | i < |cc| :: pre[i] == Total(cc[..i + 1])
  }

  lemma CellInBlock(j: Job, lab: seq<nat>, idx: seq<map<nat, nat>>, cc: seq<nat>, pre: seq<nat>, k: nat)
    requires Blocks(j, lab, idx, cc) && Prefixed(cc, pre) && k < j.N()
    ensures Total(cc[..lab[k]]) <= Cell(j, lab, idx, pre, k) < Total(cc[..lab[k] + 1])
    ensures Cell(j, lab, idx, pre, k) == Total(cc[..lab[k]]) + Offset(j, lab, idx, k)
  {
    TotalOne(cc, 0, lab[k]);
    assert cc[0..lab[k]] == cc[..lab[k]] && cc[0..lab[k] + 1] == cc[..lab[k] + 1];
    if lab[k] > 0 {
      assert pre[lab[k] - 1] == Total(cc[..lab[k]]);
    }
  }

  lemma TotalPrefixMono(cc: seq<nat>, a: nat, b: nat)
    requires a <= b <= |cc|
    ensures Total(cc[..a]) <= Total(cc[..b])
  {
    TotalSlice(cc, 0, a, b);
    assert cc[0..a] == cc[..a] && cc[0..b] == cc[..b];
  }

  /** Smaller labels come first, and no two positions share a cell. */
  lemma CellsOrdered(j: Job, lab: seq<nat>, idx: seq<map<nat, nat>>, cc: seq<nat>, pre: seq<nat>, k: nat, m: nat)
    requires Blocks(j, lab, idx, cc) && Prefixed(cc, pre) && k < j.N() && m < j.N() && k != m
    ensures lab[k] < lab[m] ==> Cell(j, lab, idx, pre, k) < Cell(j, lab, idx, pre, m)
    ensures Cell(j, lab, idx, pre, k) != Cell(j, lab, idx, pre, m)
  {
    CellInBlock(j, lab, idx, cc, pre, k);
    CellInBlock(j, lab, idx, cc, pre, m);
    if lab[k] < lab[m] {
      TotalPrefixMono(cc, lab[k] + 1, lab[m]);
    } else if lab[m] < lab[k] {
      TotalPrefixMono(cc, lab[m] + 1, lab[k]);
    } else {
      assert Offset(j, lab, idx, k) != Offset(j, lab, idx, m);
    }
  }

  /** Counting the labels of m positions counts m positions. */
  lemma {:induction false} LabelCounts(lab: seq<nat>, m: nat, n: nat, cc: seq<nat>)
    requires m <= |lab| && |cc| == n && forall k: nat | k < |lab| :: lab[k] < n
    requires forall r: nat | r < n :: cc[r] == |Positions(lab, 0, m, r)|
    ensures Total(cc) == m
    decreases m
  {
    if m == 0 {
      forall r: nat | r < n
        ensures cc[r] == 0
      {
        assert Positions(lab, 0, 0, r) == {};
      }
      AllZero(cc);
    } else {
      var r := lab[m - 1];
      assert Positions(lab, 0, m, r) == Positions(lab, 0, m - 1, r) + {m - 1};
      var prev := cc[r := cc[r] - 1];
      forall q: nat | q < n
        ensures prev[q] == |Positions(lab, 0, m - 1, q)|
      {
        if q != r {
          assert Positions(lab, 0, m, q) == Positions(lab, 0, m - 1, q);
        }
      }
      LabelCounts(lab, m - 1, n, prev);
      TotalUpdate(cc, r, cc[r] - 1);
    }
  }

  lemma {:induction false} AllZero(s: seq<nat>)
    requires forall k: nat | k < |s| :: s[k] == 0
    ensures Total(s) == 0
  {
    if s != [] {
      AllZero(s[..|s| - 1]);
    }
  }

  lemma CellsInRange(j: Job, lab: seq<nat>, idx: seq<map<nat, nat>>, cc: seq<nat>, pre: seq<nat>, k: nat)
    requires Blocks(j, lab, idx, cc) && Prefixed(cc, pre) && k < j.N()
    ensures Cell(j, lab, idx, pre, k) < j.N()
  {
    CellInBlock(j, lab, idx, cc, pre, k);
    TotalPrefixMono(cc, lab[k] + 1, j.N());
    assert cc[..j.N()] == cc;
    LabelCounts(lab, j.N(), j.N(), cc);
  }

  /** Every position is written by the thread of its partition, in any interleaving. */
  method WriteBack(j: Job, lab: seq<nat>, idx: seq<map<nat, nat>>, cc: seq<nat>, pre: seq<nat>)
    returns (mi: seq<MergeInstr>)
    requires Blocks(j, lab, idx, cc) && Prefixed(cc, pre)
    ensures |mi| == j.N()
    ensures forall k: nat | k < j.N() ::
      Cell(j, lab, idx, pre, k) < j.N() && mi[Cell(j, lab, idx, pre, k)] == MergeInstr(lab[k], j.child[k])
  {
    mi := seq(j.N(), _ => MergeInstr(0, 0));
    var todo := Range(0, j.N());
    while todo != {}
      invariant |mi| == j.N()
      invariant forall k | k in todo :: k < j.N()
      invariant forall k: nat | k < j.N() && k !in todo ::
        Cell(j, lab, idx, pre, k) < j.N() && mi[Cell(j, lab, idx, pre, k)] == MergeInstr(lab[k], j.child[k])
      decreases todo
    {
      var k :| k in todo;
      var c := Cell(j, lab, idx, pre, k);
      CellsInRange(j, lab, idx, cc, pre, k);
      forall m: nat | m < j.N() && m != k
        ensures Cell(j, lab, idx, pre, m) != c
      {
        CellsOrdered(j, lab, idx, cc, pre, k, m);
      }
      mi := mi[c := MergeInstr(lab[k], j.child[k])];
      todo := todo - {k};
    }
  }

  /** The children are all vertices, each once. */
  predicate Permutation(mi: seq<MergeInstr>) {
    && (forall k: nat | k < |mi| :: mi[k].child < |mi|)
    && (forall k: nat, m: nat | k < |mi| && m < |mi| && mi[k].child == mi[m].child :: k == m)
  }

  /** Each vertex is filed under an element of its own set, or under the root itself. */
  ghost predicate FiledInSet(mi: seq<MergeInstr>, d: Dsu) {
    d.Valid() && forall k: nat | k < |mi| ::
      mi[k].root < d.Size() && mi[k].child < d.Size() && d.SameSet(mi[k].root, mi[k].child)
  }

  /** Each vertex of a low set is filed under the root; with one thread every vertex is. */
  ghost predicate FiledWhereLow(mi: seq<MergeInstr>, d: Dsu, threads: nat) {
    d.Valid() && forall k: nat | k < |mi| ::
      mi[k].child < d.Size() && (threads == 1 || LowSet(d, d.Root(mi[k].child)) ==> mi[k].root == d.Root(mi[k].child))
  }

  /** Every label is a root or at least two links above its vertex. */
  ghost predicate FiledFar(mi: seq<MergeInstr>, d: Dsu) {
    d.Valid() && forall a: nat | a < |mi| :: mi[a].child < d.Size() && Far(d, mi[a].child, mi[a].root)
  }

  ghost predicate FiledUnderRoot(mi: seq<MergeInstr>, d: Dsu) {
    d.Valid() && forall k: nat | k < |mi| :: mi[k].child < d.Size() && mi[k].root == d.Root(mi[k].child)
  }

  ghost predicate Written(j: Job, lab: seq<nat>, idx: seq<map<nat, nat>>, cc: seq<nat>, pre: seq<nat>, mi: seq<MergeInstr>) {
    && Blocks(j, lab, idx, cc) && Prefixed(cc, pre) && |mi| == j.N()
    && (forall k: nat | k < j.N() ::
          Cell(j, lab, idx, pre, k) < j.N() && mi[Cell(j, lab, idx, pre, k)] == MergeInstr(lab[k], j.child[k]))
  }

  ghost function CellOf(j: Job, lab: seq<nat>, idx: seq<map<nat, nat>>, cc: seq<nat>, pre: seq<nat>): nat -> nat
    requires Blocks(j, lab, idx, cc) && Prefixed(cc, pre)
  {
    (k: nat) => if k < j.N() then Cell(j, lab, idx, pre, k) else j.N()
  }

  lemma CellSource(j: Job, lab: seq<nat>, idx: seq<map<nat, nat>>, cc: seq<nat>, pre: seq<nat>, mi: seq<MergeInstr>, c: nat)
    returns (k: nat)
    requires Written(j, lab, idx, cc, pre, mi) && c < j.N()
    ensures k < j.N() && Cell(j, lab, idx, pre, k) == c && mi[c] == MergeInstr(lab[k], j.child[k])
  {
    var f := CellOf(j, lab, idx, cc, pre);
    forall a: nat, b: nat | a < j.N() && b < j.N() && f(a) == f(b)
      ensures a == b
    {
      if a != b {
        CellsOrdered(j, lab, idx, cc, pre, a, b);
      }
    }
    forall a: nat | a < j.N()
      ensures f(a) < j.N()
    {
      CellsInRange(j, lab, idx, cc, pre, a);
    }
    Pigeonhole(j.N(), f, c);
    k :| k < j.N() && f(k) == c;
  }

  lemma WrittenSorted(j: Job, lab: seq<nat>, idx: seq<map<nat, nat>>, cc: seq<nat>, pre: seq<nat>, mi: seq<MergeInstr>)
    requires Written(j, lab, idx, cc, pre, mi)
    ensures Sorted(mi)
  {
    forall a: nat, b: nat | a < b < |mi|
      ensures mi[a].root <= mi[b].root
    {
      var k := CellSource(j, lab, idx, cc, pre, mi, a);
      var m := CellSource(j, lab, idx, cc, pre, mi, b);
      CellsOrdered(j, lab, idx, cc, pre, m, k);
    }
  }

  lemma WrittenPermutes(j: Job, lab: seq<nat>, idx: seq<map<nat, nat>>, cc: seq<nat>, pre: seq<nat>, mi: seq<MergeInstr>)
    requires Written(j, lab, idx, cc, pre, mi)
    requires forall k: nat, m: nat | k < j.N() && m < j.N() && j.child[k] == j.child[m] :: k == m
    ensures Permutation(mi)
  {
    forall a: nat | a < |mi|
      ensures mi[a].child < |mi|
    {
      var k := CellSource(j, lab, idx, cc, pre, mi, a);
    }
    forall a: nat, b: nat | a < |mi| && b < |mi| && mi[a].child == mi[b].child
      ensures a == b
    {
      var k := CellSource(j, lab, idx, cc, pre, mi, a);
      var m := CellSource(j, lab, idx, cc, pre, mi, b);
    }
  }

  /** Some schedule of the write-back ends with these instructions. */
  lemma WrittenExists(j: Job, lab: seq<nat>, idx: seq<map<nat, nat>>, cc: seq<nat>, pre: seq<nat>) returns (mi: seq<MergeInstr>)
    requires Blocks(j, lab, idx, cc) && Prefixed(cc, pre)
    ensures Written(j, lab, idx, cc, pre, mi)
  {
    mi := seq(j.N(), _ => MergeInstr(0, 0));
    for k := 0 to j.N()
      invariant WrittenUpTo(j, lab, idx, cc, pre, mi, k)
    {
      mi := WriteOne(j, lab, idx, cc, pre, mi, k);
    }
  }

  ghost predicate WrittenUpTo(j: Job, lab: seq<nat>, idx: seq<map<nat, nat>>, cc: seq<nat>, pre: seq<nat>, mi: seq<MergeInstr>, k: nat) {
    && Blocks(j, lab, idx, cc) && Prefixed(cc, pre) && |mi| == j.N() && k <= j.N()
    && forall m: nat | m < k :: InCell(j, mi, Cell(j, lab, idx, pre, m), lab[m], m)
  }

  predicate InCell(j: Job, mi: seq<MergeInstr>, c: nat, l: nat, m: nat)
    requires m < j.N()
  {
    c < |mi| && mi[c] == MergeInstr(l, j.child[m])
  }

  lemma WriteOne(j: Job, lab: seq<nat>, idx: seq<map<nat, nat>>, cc: seq<nat>, pre: seq<nat>, mi: seq<MergeInstr>, k: nat)
    returns (next: seq<MergeInstr>)
    requires WrittenUpTo(j, lab, idx, cc, pre, mi, k) && k < j.N()
    ensures WrittenUpTo(j, lab, idx, cc, pre, next, k + 1)
  {
    var c := Cell(j, lab, idx, pre, k);
    CellsInRange(j, lab, idx, cc, pre, k);
    next := mi[c := MergeInstr(lab[k], j.child[k])];
    forall m: nat | m < k + 1
      ensures InCell(j, next, Cell(j, lab, idx, pre, m), lab[m], m)
    {
      if m < k {
        assert InCell(j, mi, Cell(j, lab, idx, pre, m), lab[m], m);
        CellsOrdered(j, lab, idx, cc, pre, m, k);
      }
    }
  }

  // The whole function

  function Children(mi: seq<MergeInstr>): (c: seq<nat>)
    ensures |c| == |mi| && forall k: nat | k < |mi| :: c[k] == mi[k].child
  {
    seq(|mi|, k requires 0 <= k < |mi| => mi[k].child)
  }

  ghost function ChildOf(mi: seq<MergeInstr>): nat -> nat {
    (k: nat) => if k < |mi| then mi[k].child else |mi|
  }

  /** Where a vertex is listed. */
  lemma PlaceOf(mi: seq<MergeInstr>, v: nat) returns (a: nat)
    requires Permutation(mi) && v < |mi|
    ensures a < |mi| && mi[a].child == v
  {
    var f := ChildOf(mi);
    Pigeonhole(|mi|, f, v);
    a :| a < |mi| && f(a) == v;
  }

  ghost predicate Files(child: seq<nat>, lab: seq<nat>, x: MergeInstr)
    requires |lab| == |child|
  {
    exists k: nat :: k < |child| && x == MergeInstr(lab[k], child[k])
  }

  /**
   * What create_merge_instructions may leave behind under one schedule or another: the vertices,
   * each filed under the label it got, sorted by label.
   */
  ghost predicate Outcome(d: Dsu, old_mi: seq<MergeInstr>, threads: nat, e: Dsu, mi: seq<MergeInstr>)
    requires 1 <= threads <= |old_mi|
  {
    && |mi| == |old_mi| && Sorted(mi) && Permutation(mi)
    && exists s: State :: FromLabels(d, old_mi, threads, s, mi) && s.d == e
  }

  ghost predicate FromLabels(d: Dsu, old_mi: seq<MergeInstr>, threads: nat, s: State, mi: seq<MergeInstr>)
    requires 1 <= threads <= |old_mi|
  {
    && Result(MakeJob(Children(old_mi), threads), d, s) && |s.lab| == |old_mi|
    && forall a: nat | a < |mi| :: Files(Children(old_mi), s.lab, mi[a])
  }

  lemma WrittenFiles(j: Job, lab: seq<nat>, idx: seq<map<nat, nat>>, cc: seq<nat>, pre: seq<nat>, mi: seq<MergeInstr>)
    requires Written(j, lab, idx, cc, pre, mi) && Distinct(j.child)
    ensures |mi| == |lab| == j.N() && Sorted(mi) && Permutation(mi)
    ensures forall a: nat | a < |mi| :: Files(j.child, lab, mi[a])
  {
    WrittenSorted(j, lab, idx, cc, pre, mi);
    WrittenPermutes(j, lab, idx, cc, pre, mi);
    forall a: nat | a < |mi|
      ensures Files(j.child, lab, mi[a])
    {
      var k := CellSource(j, lab, idx, cc, pre, mi, a);
    }
  }

  /** Every result of the labelling phase leads to instructions. */
  lemma Sorts(j: Job, d: Dsu, s: State) returns (mi: seq<MergeInstr>)
    requires Result(j, d, s) && d.Valid() && d.Size() == j.N() && Distinct(j.child)
    ensures |mi| == |s.lab| == j.N() && Sorted(mi) && Permutation(mi)
    ensures forall a: nat | a < |mi| :: Files(j.child, s.lab, mi[a])
  {
    ResultInv(j, d, s);
    mi := SortsLabels(j, d, s);
  }

  lemma SortsLabels(j: Job, d: Dsu, s: State) returns (mi: seq<MergeInstr>)
    requires GatherInv(j, d, s) && AllIdle(s) && Distinct(j.child)
    ensures |mi| == |s.lab| == j.N() && Sorted(mi) && Permutation(mi)
    ensures forall a: nat | a < |mi| :: Files(j.child, s.lab, mi[a])
  {
    FinishedBlocks(j, d, s);
    var pre := seq(j.N(), i requires 0 <= i < j.N() => Total(s.cc[..i + 1]));
    mi := WrittenExists(j, s.lab, s.idx, s.cc, pre);
    WrittenFiles(j, s.lab, s.idx, s.cc, pre, mi);
  }

  /** From the counters to the instructions. */
  method SortByLabel(j: Job, ghost d: Dsu, s: State) returns (mi: seq<MergeInstr>)
    requires GatherInv(j, d, s) && AllIdle(s) && Distinct(j.child)
    ensures |mi| == |s.lab| == j.N() && Sorted(mi) && Permutation(mi)
    ensures forall a: nat | a < |mi| :: Files(j.child, s.lab, mi[a])
  {
    FinishedBlocks(j, d, s);
    var local := LocalPrefixSums(j, s.cc);
    var sums := RangeSums(j, s.cc, local);
    var pre := FinishPrefixSums(j, s.cc, local, sums);
    mi := WriteBack(j, s.lab, s.idx, s.cc, pre);
    WrittenFiles(j, s.lab, s.idx, s.cc, pre, mi);
  }

  /**
   * The whole function. Whatever the schedule, the instructions stay a permutation of the
   * vertices sorted into one contiguous block per label, and no set changes. Labels are
   * roots with one thread or in a low forest; otherwise roots or members of the same set at least
   * two links above the vertex.
   */
  method CreateMergeInstructions(d: Dsu, old_mi: seq<MergeInstr>, threads: nat)
    returns (e: Dsu, mi: seq<MergeInstr>)
    requires d.Valid() && |old_mi| == d.Size() && Permutation(old_mi) && 1 <= threads <= |old_mi|
    ensures Outcome(d, old_mi, threads, e, mi)
    ensures SameRoots(d, e)
    ensures |mi| == |old_mi| && Sorted(mi) && Permutation(mi) && FiledInSet(mi, d)
    ensures FiledFar(mi, d) && FiledWhereLow(mi, d, threads) && (threads == 1 || Low(d) ==> FiledUnderRoot(mi, d))
  {
    var j := MakeJob(Children(old_mi), threads);
    MakeJobValid(Children(old_mi), threads);
    var s := GatherLabels(j, d);
    mi := SortByLabel(j, d, s);
    e := s.d;
    assert FromLabels(d, old_mi, threads, s, mi);
    OutcomeFiled(d, old_mi, threads, e, mi);
  }

  lemma OutcomeFiled(d: Dsu, old_mi: seq<MergeInstr>, threads: nat, e: Dsu, mi: seq<MergeInstr>)
    requires d.Valid() && |old_mi| == d.Size() && Permutation(old_mi) && 1 <= threads <= |old_mi|
    requires Outcome(d, old_mi, threads, e, mi)
    ensures SameRoots(d, e) && FiledInSet(mi, d) && FiledWhereLow(mi, d, threads) && FiledFar(mi, d)
    ensures threads == 1 || Low(d) ==> FiledUnderRoot(mi, d)
  {
    var s: State :| FromLabels(d, old_mi, threads, s, mi) && s.d == e;
    LabelsFiled(d, old_mi, threads, s, mi);
  }

  lemma LabelsFiled(d: Dsu, old_mi: seq<MergeInstr>, threads: nat, s: State, mi: seq<MergeInstr>)
    requires d.Valid() && |old_mi| == d.Size() && Permutation(old_mi) && 1 <= threads <= |old_mi|
    requires |mi| == |old_mi| && FromLabels(d, old_mi, threads, s, mi)
    ensures SameRoots(d, s.d) && FiledInSet(mi, d) && FiledWhereLow(mi, d, threads) && FiledFar(mi, d)
    ensures threads == 1 || Low(d) ==> FiledUnderRoot(mi, d)
  {
    var child := Children(old_mi);
    var j := MakeJob(child, threads);
    MakeJobValid(child, threads);
    ResultSets(j, d, s);
    forall a: nat | a < |mi|
      ensures EntryFiled(d, threads, mi[a])
    {
      assert Files(child, s.lab, mi[a]);
      EntryIsFiled(j, d, s, mi[a]);
    }
  }

  lemma ResultSets(j: Job, d: Dsu, s: State)
    requires Result(j, d, s) && d.Valid() && d.Size() == j.N()
    ensures SameRoots(d, s.d)
  {
    ResultInv(j, d, s);
  }

  ghost predicate EntryFiled(d: Dsu, threads: nat, x: MergeInstr)
    requires d.Valid()
  {
    && x.root < d.Size() && x.child < d.Size() && d.SameSet(x.root, x.child)
    && (threads == 1 || LowSet(d, d.Root(x.child)) ==> x.root == d.Root(x.child))
    && Far(d, x.child, x.root)
  }

  lemma EntryIsFiled(j: Job, d: Dsu, s: State, x: MergeInstr)
    requires Result(j, d, s) && d.Valid() && d.Size() == j.N() == |s.lab| && Distinct(j.child) && Files(j.child, s.lab, x)
    ensures EntryFiled(d, j.Threads(), x)
  {
    ResultInv(j, d, s);
    var k: nat :| k < |j.child| && x == MergeInstr(s.lab[k], j.child[k]);
    FinishedLabels(j, d, s, k);
    FinishedExact(j, d, s, k);
    ResultFar(j, d, s, k);
  }

  lemma FinishedExact(j: Job, d: Dsu, s: State, k: nat)
    requires GatherInv(j, d, s) && AllIdle(s) && k < j.N()
    ensures d.Valid() && j.child[k] < d.Size()
    ensures j.Threads() == 1 || (Distinct(j.child) && LowSet(d, d.Root(j.child[k]))) ==> s.lab[k] == d.Root(j.child[k])
  {
    FinishedLabels(j, d, s, k);
    assert Idle(s.ws[j.owner[k]]);
    assert Labelled(j, s, k);
    if |j.lo| == 2 || Distinct(j.child) {
      assert LabelExact(j, LevelsOf(d), s.d, j.child[k], s.lab[k]);
    }
  }
}
