// First phase of create_merge_instructions (src/cc_sketch_alg.cpp, lines 386-419): every
// thread labels the vertices of its partition with find_root and reserves, for each
// label, a range inside the block of that label.

module Jobs {
  import P = Partition

  /**
   * A division of positions over threads: partition t is lo[t]..lo[t + 1], owner[k] is the
   * partition of position k, child[k] the vertex found at position k.
   */
  datatype Job = Job(child: seq<nat>, lo: seq<nat>, owner: seq<nat>) {
    function N(): nat { |child| }

    function Threads(): nat
      requires |lo| > 0
    {
      |lo| - 1
    }

    predicate Valid() {
      && |lo| >= 2 && lo[0] == 0 && lo[|lo| - 1] == |child| == |owner|
      && (forall t: nat, u: nat | t < u < |lo| :: lo[t] < lo[u])
      && (forall k: nat | k < |child| :: child[k] < |child|)
      && (forall k: nat | k < |child| :: owner[k] + 1 < |lo| && lo[owner[k]] <= k < lo[owner[k] + 1])
      && (forall t: nat, k: nat | t + 1 < |lo| && lo[t] <= k < lo[t + 1] :: owner[k] == t)
    }
  }

  /** The division computed by get_ith_partition. */
  function MakeJob(child: seq<nat>, threads: nat): Job
    requires 1 <= threads <= |child|
  {
    Job(child,
        seq(threads + 1, t requires 0 <= t => P.Start(|child|, t, threads)),
        seq(|child|, k requires 0 <= k => P.PartitionOf(|child|, k, threads)))
  }

  lemma Increasing(n: nat, threads: nat, t: nat, u: nat)
    requires 1 <= threads <= n && t < u <= threads
    ensures P.Start(n, t, threads) < P.Start(n, u, threads)
  {
    P.PartitionsTile(n, threads, t);
    P.StartMono(n, threads, t + 1, u);
  }

  lemma OwnerOf(n: nat, threads: nat, k: nat)
    requires 1 <= threads <= n && k < n
    ensures var t := P.PartitionOf(n, k, threads);
      t < threads && P.Start(n, t, threads) <= k < P.Start(n, t + 1, threads)
  {
    P.PartitionOfInverse(n, threads, 0, k);
    P.PartitionOfInverse(n, threads, P.PartitionOf(n, k, threads), k);
  }

  lemma BoundsIncrease(child: seq<nat>, threads: nat)
    requires 1 <= threads <= |child|
    ensures var lo := MakeJob(child, threads).lo;
      |lo| == threads + 1 && lo[0] == 0 && lo[threads] == |child| && forall t: nat, u: nat | t < u < |lo| :: lo[t] < lo[u]
  {
    var lo := MakeJob(child, threads).lo;
    P.PartitionsTile(|child|, threads, 0);
    forall t: nat, u: nat | t < u < |lo|
      ensures lo[t] < lo[u]
    {
      Increasing(|child|, threads, t, u);
    }
  }

  lemma OwnersHold(child: seq<nat>, threads: nat, k: nat)
    requires 1 <= threads <= |child| && k < |child|
    ensures var j := MakeJob(child, threads);
      |j.owner| == |child| && |j.lo| == threads + 1 &&
      j.owner[k] < threads && j.lo[j.owner[k]] <= k < j.lo[j.owner[k] + 1]
  {
    OwnerOf(|child|, threads, k);
  }

  lemma OwnersUnique(child: seq<nat>, threads: nat, t: nat, k: nat)
    requires 1 <= threads <= |child| && t < threads && k < |child|
    requires var j := MakeJob(child, threads); j.lo[t] <= k < j.lo[t + 1]
    ensures MakeJob(child, threads).owner[k] == t
  {
    P.PartitionOfInverse(|child|, threads, t, k);
  }

  lemma MakeJobValid(child: seq<nat>, threads: nat)
    requires 1 <= threads <= |child| && forall k: nat | k < |child| :: child[k] < |child|
    ensures MakeJob(child, threads).Valid() && MakeJob(child, threads).Threads() == threads
  {
    var j := MakeJob(child, threads);
    BoundsIncrease(child, threads);
    forall k: nat | k < |child|
      ensures j.owner[k] + 1 < |j.lo| && j.lo[j.owner[k]] <= k < j.lo[j.owner[k] + 1]
    {
      OwnersHold(child, threads, k);
    }
    forall t: nat, k: nat | t + 1 < |j.lo| && j.lo[t] <= k < j.lo[t + 1]
      ensures j.owner[k] == t
    {
      assert t + 1 == threads || j.lo[t + 1] < j.lo[threads];
      OwnersUnique(child, threads, t, k);
    }
  }
}

module Gather {
  import opened Counting
  import opened DsuSpec
  import opened DsuConcurrent
  import opened DsuFindRace
  import opened Jobs

  /** A thread still labels position pos, or captures the counters of the labels in todo. */
  datatype Worker = Looking(pos: nat, f: Find) | Capturing(todo: set<nat>)

  /**
   * lab: labels by position; cc: cc_prefix before the prefix sum; idx: local_cc_idx, the
   * captured counter values of each thread.
   */
  datatype State = State(d: Dsu, lab: seq<nat>, ws: seq<Worker>, idx: seq<map<nat, nat>>, cc: seq<nat>)

  /** The positions in lo..hi that carry label r. */
  function Positions(lab: seq<nat>, lo: nat, hi: nat, r: nat): set<nat>
    requires lo <= hi <= |lab|
  {
    set k | k in Range(lo, hi) && lab[k] == r
  }

  function Labels(lab: seq<nat>, lo: nat, hi: nat): set<nat>
    requires lo <= hi <= |lab|
  {
    set k | k in Range(lo, hi) :: lab[k]
  }

  /** How many vertices of label r partition t holds. */
  function Share(j: Job, lab: seq<nat>, t: nat, r: nat): nat
    requires j.Valid() && |lab| == j.N() && t < j.Threads()
  {
    |Positions(lab, j.lo[t], j.lo[t + 1], r)|
  }

  function Put(m: map<nat, nat>, k: nat, v: nat): map<nat, nat> {
    m + map[k := v]
  }

  predicate Idle(w: Worker) {
    w.Capturing? && w.todo == {}
  }

  // The atomic steps of thread t

  function InitState(j: Job, d: Dsu): State
    requires j.Valid()
  {
    State(d, seq(j.N(), _ => 0),
          seq(j.Threads(), t requires 0 <= t < j.Threads() => assert j.lo[t] < j.lo[t + 1] <= j.N(); Looking(j.lo[t], StartFind(j.child[j.lo[t]]))),
          seq(j.Threads(), _ => map[]), seq(j.N(), _ => 0))
  }

  function FindMove(s: State, t: nat, pick: nat): State
    requires s.d.Valid() && t < |s.ws| && s.ws[t].Looking? && InRange(s.d.Size(), s.ws[t].f)
  {
    var (e, g) := FindStep(s.d, s.ws[t].f, pick);
    s.(d := e, ws := s.ws[t := Looking(s.ws[t].pos, g)])
  }

  function LabelMove(j: Job, s: State, t: nat): State
    requires j.Valid() && t < |s.ws| == j.Threads() && |s.lab| == j.N()
    requires s.ws[t].Looking? && s.ws[t].f.Found? && s.ws[t].pos < j.N()
  {
    var pos := s.ws[t].pos;
    var lab := s.lab[pos := s.ws[t].f.r];
    var w := if pos + 1 < j.lo[t + 1] then Looking(pos + 1, StartFind(j.child[pos + 1]))
             else Capturing(Labels(lab, j.lo[t], j.lo[t + 1]));
    s.(lab := lab, ws := s.ws[t := w])
  }

  function CaptureMove(j: Job, s: State, t: nat, r: nat): State
    requires j.Valid() && t < |s.ws| == |s.idx| == j.Threads() && |s.lab| == |s.cc| == j.N()
    requires s.ws[t].Capturing? && r < j.N()
  {
    s.(ws := s.ws[t := Capturing(s.ws[t].todo - {r})],
       idx := s.idx[t := Put(s.idx[t], r, s.cc[r])],
       cc := s.cc[r := s.cc[r] + Share(j, s.lab, t, r)])
  }

  // Invariants

  ghost predicate Shape(j: Job, s: State) {
    && j.Valid() && s.d.Valid() && s.d.Size() == |s.lab| == |s.cc| == j.N()
    && |s.ws| == |s.idx| == j.Threads()
  }

  /** Is the label of position k final? */
  predicate Labelled(j: Job, s: State, k: nat)
    requires j.Valid() && |s.ws| == j.Threads() && k < j.N()
  {
    s.ws[j.owner[k]].Capturing? || k < s.ws[j.owner[k]].pos
  }

  ghost predicate WorkerInv(j: Job, s: State, t: nat)
    requires Shape(j, s) && t < j.Threads()
  {
    match s.ws[t]
    case Looking(pos, f) =>
      j.lo[t] <= pos < j.lo[t + 1] && FindInv(s.d, j.child[pos], f) && s.idx[t] == map[]
    case Capturing(todo) =>
      s.idx[t].Keys !! todo && s.idx[t].Keys + todo == Labels(s.lab, j.lo[t], j.lo[t + 1])
  }

  ghost predicate Workers(j: Job, s: State) {
    Shape(j, s) && forall t: nat | t < j.Threads() :: WorkerInv(j, s, t)
  }

  ghost predicate LabelOk(d: Dsu, c: nat, l: nat)
    requires d.Valid() && c < d.Size()
  {
    l < d.Size() && d.SameSet(l, c)
  }

  /** Every final label lies in the set of its vertex. */
  ghost predicate LabelsOk(j: Job, s: State)
    requires Shape(j, s)
  {
    forall k: nat | k < j.N() && Labelled(j, s, k) :: LabelOk(s.d, j.child[k], s.lab[k])
  }

  ghost predicate FindExact(j: Job, level: seq<nat>, d: Dsu, w: Worker)
    requires d.Valid() && (|j.lo| == 2 || Levels(d, level))
  {
    w.Looking? ==>
      InRange(d.Size(), w.f) &&
      (if |j.lo| == 2 then Current(d, w.f) else w.pos < j.N() && j.child[w.pos] < d.Size() && Steady(d, level, j.child[w.pos], w.f))
  }

  /** The label of a vertex c of a low set is a root. */
  ghost predicate LabelExact(j: Job, level: seq<nat>, d: Dsu, c: nat, l: nat) {
    l < d.Size() && (d.IsRoot(l) || (|j.lo| > 2 && c < |level| && level[c] == HIGH))
  }

  /** With one thread every final label is a root, with more every one inside a low set. */
  ghost predicate ExactSoFar(j: Job, level: seq<nat>, s: State)
    requires Shape(j, s)
  {
    && (|j.lo| == 2 || (Levels(s.d, level) && AllClear(level, j.child)))
    && (forall t: nat | t < j.Threads() :: FindExact(j, level, s.d, s.ws[t]))
    && (forall k: nat | k < j.N() && Labelled(j, s, k) :: LabelExact(j, level, s.d, j.child[k], s.lab[k]))
  }

  /** Positions whose thread has reserved room for label r. */
  ghost function Reserved(j: Job, lab: seq<nat>, idx: seq<map<nat, nat>>, r: nat): set<nat>
    requires j.Valid() && |lab| == j.N() && |idx| == j.Threads()
  {
    set k | k in Range(0, j.N()) && lab[k] == r && r in idx[j.owner[k]]
  }

  ghost predicate Below(j: Job, s: State, t: nat, r: nat)
    requires Shape(j, s) && t < j.Threads() && r < j.N()
  {
    r in s.idx[t] ==> s.idx[t][r] + Share(j, s.lab, t, r) <= s.cc[r]
  }

  ghost predicate Apart(j: Job, s: State, t: nat, u: nat, r: nat)
    requires Shape(j, s) && t < j.Threads() && u < j.Threads()
  {
    t != u && r in s.idx[t] && r in s.idx[u] ==>
      s.idx[t][r] + Share(j, s.lab, t, r) <= s.idx[u][r] || s.idx[u][r] + Share(j, s.lab, u, r) <= s.idx[t][r]
  }

  ghost predicate Counted(j: Job, s: State, r: nat)
    requires Shape(j, s) && r < j.N()
  {
    s.cc[r] == |Reserved(j, s.lab, s.idx, r)|
  }

  /** The reserved ranges of a label are disjoint and lie below its counter. */
  ghost predicate Reservations(j: Job, s: State)
    requires Shape(j, s)
  {
    && (forall r: nat | r < j.N() :: Counted(j, s, r))
    && (forall t: nat, r: nat | t < j.Threads() && r < j.N() :: Below(j, s, t, r))
    && (forall t: nat, u: nat, r: nat | t < j.Threads() && u < j.Threads() && r < j.N() :: Apart(j, s, t, u, r))
  }

  // Find steps

  lemma FindMoveWorkers(j: Job, s: State, t: nat, pick: nat)
    requires Workers(j, s) && t < j.Threads() && s.ws[t].Looking? && !s.ws[t].f.Found?
    ensures InRange(s.d.Size(), s.ws[t].f)
    ensures Workers(j, FindMove(s, t, pick)) && SameRoots(s.d, FindMove(s, t, pick).d)
  {
    assert WorkerInv(j, s, t);
    var Looking(pos, f) := s.ws[t];
    FindStepKeeps(s.d, j.child[pos], f, pick);
    var r := FindMove(s, t, pick);
    forall i: nat | i < j.Threads()
      ensures WorkerInv(j, r, i)
    {
      assert WorkerInv(j, s, i);
      if i != t && s.ws[i].Looking? {
        FindInvStable(s.d, r.d, j.child[s.ws[i].pos], s.ws[i].f);
      }
    }
  }

  lemma FindMoveLabels(j: Job, s: State, t: nat, pick: nat)
    requires Workers(j, s) && t < j.Threads() && s.ws[t].Looking? && !s.ws[t].f.Found?
    requires LabelsOk(j, s) && InRange(s.d.Size(), s.ws[t].f) && Reservations(j, s)
    requires Workers(j, FindMove(s, t, pick)) && SameRoots(s.d, FindMove(s, t, pick).d)
    ensures LabelsOk(j, FindMove(s, t, pick)) && Reservations(j, FindMove(s, t, pick))
  {
    var r := FindMove(s, t, pick);
    forall k: nat | k < j.N() && Labelled(j, r, k)
      ensures LabelOk(r.d, j.child[k], r.lab[k])
    {
      assert Labelled(j, s, k);
      assert LabelOk(s.d, j.child[k], s.lab[k]);
    }
    ReservationsFrame(j, s, r);
  }

  lemma ReservationsFrame(j: Job, s: State, r: State)
    requires Shape(j, s) && Shape(j, r) && r.lab == s.lab && r.idx == s.idx && r.cc == s.cc && Reservations(j, s)
    ensures Reservations(j, r)
  {
    forall l: nat | l < j.N()
      ensures Counted(j, r, l)
    {
      assert Counted(j, s, l);
    }
    forall t: nat, l: nat | t < j.Threads() && l < j.N()
      ensures Below(j, r, t, l)
    {
      assert Below(j, s, t, l);
    }
    forall t: nat, u: nat, l: nat | t < j.Threads() && u < j.Threads() && l < j.N()
      ensures Apart(j, r, t, u, l)
    {
      assert Apart(j, s, t, u, l);
    }
  }

  lemma FindMoveExact(j: Job, level: seq<nat>, s: State, t: nat, pick: nat)
    requires Workers(j, s) && t < j.Threads() && s.ws[t].Looking? && !s.ws[t].f.Found?
    requires ExactSoFar(j, level, s) && InRange(s.d.Size(), s.ws[t].f)
    requires Workers(j, FindMove(s, t, pick)) && SameRoots(s.d, FindMove(s, t, pick).d)
    ensures ExactSoFar(j, level, FindMove(s, t, pick))
  {
    assert WorkerInv(j, s, t);
    var r := FindMove(s, t, pick);
    assert FindExact(j, level, s.d, s.ws[t]);
    if |j.lo| == 2 {
      CurrentStep(s.d, j.child[s.ws[t].pos], s.ws[t].f, pick);
    } else {
      SteadyStep(s.d, level, j.child[s.ws[t].pos], s.ws[t].f, pick);
      OthersStaySteady(j, level, s, t, r);
    }
    forall k: nat | k < j.N() && Labelled(j, r, k)
      ensures LabelExact(j, level, r.d, j.child[k], r.lab[k])
    {
      assert Labelled(j, s, k);
      assert LabelExact(j, level, s.d, j.child[k], s.lab[k]);
    }
  }

  /** Two threads search from different positions. */
  lemma PositionsDiffer(j: Job, s: State, t: nat, i: nat)
    requires Workers(j, s) && t < j.Threads() && i < j.Threads() && i != t && s.ws[t].Looking? && s.ws[i].Looking?
    ensures s.ws[t].pos < j.N() && s.ws[i].pos < j.N() && s.ws[t].pos != s.ws[i].pos
  {
    assert WorkerInv(j, s, t) && WorkerInv(j, s, i);
    assert j.lo[t + 1] <= j.N() && j.lo[i + 1] <= j.N();
    assert j.owner[s.ws[t].pos] == t && j.owner[s.ws[i].pos] == i;
  }

  lemma OthersStaySteady(j: Job, level: seq<nat>, s: State, t: nat, r: State)
    requires Workers(j, s) && t < j.Threads() && |j.lo| > 2 && Shape(j, r) && s.ws[t].Looking? && s.ws[t].pos < j.N()
    requires Lifts(s.d, r.d, level, j.child[s.ws[t].pos]) && AllClear(level, j.child)
    requires forall i: nat | i < j.Threads() && i != t :: r.ws[i] == s.ws[i]
    requires FindExact(j, level, r.d, r.ws[t]) && forall i: nat | i < j.Threads() :: FindExact(j, level, s.d, s.ws[i])
    ensures forall i: nat | i < j.Threads() :: FindExact(j, level, r.d, r.ws[i])
  {
    forall i: nat | i < j.Threads()
      ensures FindExact(j, level, r.d, r.ws[i])
    {
      assert FindExact(j, level, s.d, s.ws[i]);
      if i != t && s.ws[i].Looking? {
        PositionsDiffer(j, s, t, i);
        SteadyStable(s.d, r.d, level, j.child[s.ws[i].pos], j.child[s.ws[t].pos], s.ws[i].f);
      }
    }
  }

  // Label steps

  lemma LabelsFrame(a: seq<nat>, b: seq<nat>, lo: nat, hi: nat)
    requires lo <= hi <= |a| == |b| && forall k | lo <= k < hi :: a[k] == b[k]
    ensures Labels(a, lo, hi) == Labels(b, lo, hi)
    ensures forall r :: Positions(a, lo, hi, r) == Positions(b, lo, hi, r)
  {
  }

  lemma OtherPartition(j: Job, s: State, t: nat, i: nat)
    requires Workers(j, s) && t < j.Threads() && i < j.Threads() && i != t
    requires s.ws[t].Looking? && s.ws[t].f.Found? && s.ws[t].pos < j.N()
    ensures var r := LabelMove(j, s, t);
      Labels(r.lab, j.lo[i], j.lo[i + 1]) == Labels(s.lab, j.lo[i], j.lo[i + 1]) &&
      forall l: nat :: Share(j, r.lab, i, l) == Share(j, s.lab, i, l)
  {
    assert WorkerInv(j, s, t);
    var r := LabelMove(j, s, t);
    forall k | j.lo[i] <= k < j.lo[i + 1]
      ensures r.lab[k] == s.lab[k]
    {
      assert j.owner[k] == i;
    }
    LabelsFrame(r.lab, s.lab, j.lo[i], j.lo[i + 1]);
  }

  lemma LabelMoveWorkers(j: Job, s: State, t: nat)
    requires Workers(j, s) && t < j.Threads() && s.ws[t].Looking? && s.ws[t].f.Found?
    ensures s.ws[t].pos < j.N() && s.ws[t].f.r < j.N()
    ensures Workers(j, LabelMove(j, s, t))
  {
    assert WorkerInv(j, s, t);
    var Looking(pos, f) := s.ws[t];
    var r := LabelMove(j, s, t);
    forall i: nat | i < j.Threads()
      ensures WorkerInv(j, r, i)
    {
      assert WorkerInv(j, s, i);
      if i != t {
        OtherPartition(j, s, t, i);
      } else if pos + 1 < j.lo[t + 1] {
        ParentUp(s.d, j.child[pos + 1]);
      }
    }
  }

  lemma LabelMoveLabels(j: Job, s: State, t: nat)
    requires Workers(j, s) && t < j.Threads() && s.ws[t].Looking? && s.ws[t].f.Found?
    requires s.ws[t].pos < j.N() && LabelsOk(j, s)
    ensures LabelsOk(j, LabelMove(j, s, t))
  {
    assert WorkerInv(j, s, t);
    var Looking(pos, f) := s.ws[t];
    var r := LabelMove(j, s, t);
    forall k: nat | k < j.N() && Labelled(j, r, k)
      ensures LabelOk(r.d, j.child[k], r.lab[k])
    {
      if k == pos {
        assert FindInv(s.d, j.child[pos], f);
      } else {
        assert Labelled(j, s, k);
        assert LabelOk(s.d, j.child[k], s.lab[k]);
      }
    }
  }

  lemma LabelMoveExact(j: Job, level: seq<nat>, s: State, t: nat)
    requires Workers(j, s) && t < j.Threads() && s.ws[t].Looking? && s.ws[t].f.Found?
    requires s.ws[t].pos < j.N() && ExactSoFar(j, level, s)
    ensures Shape(j, LabelMove(j, s, t)) && ExactSoFar(j, level, LabelMove(j, s, t))
  {
    assert WorkerInv(j, s, t);
    var pos, r := s.ws[t].pos, LabelMove(j, s, t);
    assert FindExact(j, level, s.d, s.ws[t]);
    forall k: nat | k < j.N() && Labelled(j, r, k)
      ensures LabelExact(j, level, r.d, j.child[k], r.lab[k])
    {
      if k != pos {
        assert Labelled(j, s, k);
      }
    }
    forall i: nat | i < j.Threads()
      ensures FindExact(j, level, r.d, r.ws[i])
    {
      assert FindExact(j, level, s.d, s.ws[i]);
    }
  }

  lemma LabelMoveReserves(j: Job, s: State, t: nat)
    requires Workers(j, s) && t < j.Threads() && s.ws[t].Looking? && s.ws[t].f.Found?
    requires s.ws[t].pos < j.N() && Reservations(j, s)
    ensures Shape(j, LabelMove(j, s, t)) && Reservations(j, LabelMove(j, s, t))
  {
    assert WorkerInv(j, s, t);
    var q := LabelMove(j, s, t);
    forall r: nat | r < j.N()
      ensures Counted(j, q, r)
    {
      assert Counted(j, s, r);
      assert Reserved(j, q.lab, q.idx, r) == Reserved(j, s.lab, s.idx, r);
    }
    forall i: nat, r: nat | i < j.Threads() && r < j.N()
      ensures Below(j, q, i, r)
    {
      assert Below(j, s, i, r);
      if i != t {
        OtherPartition(j, s, t, i);
      }
    }
    forall i: nat, u: nat, r: nat | i < j.Threads() && u < j.Threads() && r < j.N()
      ensures Apart(j, q, i, u, r)
    {
      assert Apart(j, s, i, u, r);
      if i != t {
        OtherPartition(j, s, t, i);
      }
      if u != t {
        OtherPartition(j, s, t, u);
      }
    }
  }

  // Capture steps

  lemma CaptureMoveWorkers(j: Job, s: State, t: nat, l: nat)
    requires Workers(j, s) && t < j.Threads() && s.ws[t].Capturing? && l in s.ws[t].todo && l < j.N()
    requires LabelsOk(j, s)
    ensures Workers(j, CaptureMove(j, s, t, l)) && LabelsOk(j, CaptureMove(j, s, t, l))
  {
    var r := CaptureMove(j, s, t, l);
    forall i: nat | i < j.Threads()
      ensures WorkerInv(j, r, i)
    {
      assert WorkerInv(j, s, i);
    }
    forall k: nat | k < j.N() && Labelled(j, r, k)
      ensures LabelOk(r.d, j.child[k], r.lab[k])
    {
      assert Labelled(j, s, k);
      assert LabelOk(s.d, j.child[k], s.lab[k]);
    }
  }

  lemma CaptureMoveExact(j: Job, level: seq<nat>, s: State, t: nat, l: nat)
    requires Workers(j, s) && t < j.Threads() && s.ws[t].Capturing? && l < j.N() && ExactSoFar(j, level, s)
    ensures Shape(j, CaptureMove(j, s, t, l)) && ExactSoFar(j, level, CaptureMove(j, s, t, l))
  {
    var r := CaptureMove(j, s, t, l);
    forall k: nat | k < j.N() && Labelled(j, r, k)
      ensures LabelExact(j, level, r.d, j.child[k], r.lab[k])
    {
      assert Labelled(j, s, k);
    }
    forall i: nat | i < j.Threads()
      ensures FindExact(j, level, r.d, r.ws[i])
    {
      assert FindExact(j, level, s.d, s.ws[i]);
    }
  }

  lemma ReservedSplits(j: Job, lab: seq<nat>, idx: seq<map<nat, nat>>, q: seq<map<nat, nat>>, t: nat, l: nat, k: nat)
    requires j.Valid() && |lab| == j.N() && |q| == |idx| == j.Threads() && t < j.Threads() && l !in idx[t]
    requires l in q[t] && forall i: nat | i < |q| && i != t :: q[i] == idx[i]
    ensures k in Reserved(j, lab, q, l) <==> k in Reserved(j, lab, idx, l) || k in Positions(lab, j.lo[t], j.lo[t + 1], l)
    ensures !(k in Reserved(j, lab, idx, l) && k in Positions(lab, j.lo[t], j.lo[t + 1], l))
  {
    if k < j.N() {
      assert j.owner[k] == t <==> j.lo[t] <= k < j.lo[t + 1];
    }
  }

  lemma ReservedGrows(j: Job, lab: seq<nat>, idx: seq<map<nat, nat>>, q: seq<map<nat, nat>>, t: nat, l: nat)
    requires j.Valid() && |lab| == j.N() && |q| == |idx| == j.Threads() && t < j.Threads() && l !in idx[t]
    requires l in q[t] && forall i: nat | i < |q| && i != t :: q[i] == idx[i]
    ensures |Reserved(j, lab, q, l)| == |Reserved(j, lab, idx, l)| + Share(j, lab, t, l)
  {
    var before, after := Reserved(j, lab, idx, l), Reserved(j, lab, q, l);
    var own := Positions(lab, j.lo[t], j.lo[t + 1], l);
    forall k: nat
      ensures k in after <==> k in before + own
      ensures !(k in before && k in own)
    {
      ReservedSplits(j, lab, idx, q, t, l, k);
    }
    DisjointCard(before, own, after);
  }

  lemma DisjointCard(a: set<nat>, b: set<nat>, c: set<nat>)
    requires a !! b && forall k: nat :: k in c <==> k in a + b
    ensures |c| == |a| + |b|
  {
    assert c == a + b;
  }

  lemma ReservedSame(j: Job, lab: seq<nat>, idx: seq<map<nat, nat>>, q: seq<map<nat, nat>>, r: nat)
    requires j.Valid() && |lab| == j.N() && |q| == |idx| == j.Threads()
    requires forall i: nat | i < |q| :: r in q[i] <==> r in idx[i]
    ensures Reserved(j, lab, q, r) == Reserved(j, lab, idx, r)
  {
  }

  lemma CaptureCounts(j: Job, s: State, t: nat, l: nat, r: nat)
    requires Workers(j, s) && t < j.Threads() && s.ws[t].Capturing? && l in s.ws[t].todo && l < j.N() && r < j.N()
    requires Counted(j, s, r)
    ensures Shape(j, CaptureMove(j, s, t, l)) && Counted(j, CaptureMove(j, s, t, l), r)
  {
    assert WorkerInv(j, s, t);
    var q := CaptureMove(j, s, t, l);
    if r == l {
      ReservedGrows(j, s.lab, s.idx, q.idx, t, l);
    } else {
      ReservedSame(j, s.lab, s.idx, q.idx, r);
    }
  }

  lemma CaptureMoveReserves(j: Job, s: State, t: nat, l: nat)
    requires Workers(j, s) && t < j.Threads() && s.ws[t].Capturing? && l in s.ws[t].todo && l < j.N()
    requires Reservations(j, s)
    ensures Shape(j, CaptureMove(j, s, t, l)) && Reservations(j, CaptureMove(j, s, t, l))
  {
    assert WorkerInv(j, s, t);
    var q := CaptureMove(j, s, t, l);
    forall r: nat | r < j.N()
      ensures Counted(j, q, r)
    {
      CaptureCounts(j, s, t, l, r);
    }
    forall i: nat, r: nat | i < j.Threads() && r < j.N()
      ensures Below(j, q, i, r)
    {
      assert Below(j, s, i, r);
    }
    forall i: nat, u: nat, r: nat | i < j.Threads() && u < j.Threads() && r < j.N()
      ensures Apart(j, q, i, u, r)
    {
      assert Apart(j, s, i, u, r);
      assert Below(j, s, i, r) && Below(j, s, u, r);
    }
  }

  // All steps together

  ghost predicate GatherInv(j: Job, d0: Dsu, s: State) {
    && Workers(j, s) && SameRoots(d0, s.d) && LabelsOk(j, s) && Reservations(j, s)
    && (|j.lo| == 2 || Distinct(j.child) ==> ExactSoFar(j, LevelsOf(d0), s))
  }

  lemma TodoBelow(j: Job, s: State, t: nat, l: nat)
    requires Workers(j, s) && LabelsOk(j, s) && t < j.Threads() && s.ws[t].Capturing? && l in s.ws[t].todo
    ensures l < j.N()
  {
    assert WorkerInv(j, s, t);
    var k :| k in Range(j.lo[t], j.lo[t + 1]) && s.lab[k] == l;
    assert Labelled(j, s, k);
    assert LabelOk(s.d, j.child[k], s.lab[k]);
  }

  /** A load or store of find_root by any thread. */
  lemma GatherFind(j: Job, d0: Dsu, s: State, t: nat, pick: nat)
    requires GatherInv(j, d0, s) && t < j.Threads() && s.ws[t].Looking? && !s.ws[t].f.Found?
    ensures InRange(s.d.Size(), s.ws[t].f) && GatherInv(j, d0, FindMove(s, t, pick))
  {
    FindMoveWorkers(j, s, t, pick);
    FindMoveLabels(j, s, t, pick);
    SameRootsTrans(d0, s.d, FindMove(s, t, pick).d);
    if |j.lo| == 2 || Distinct(j.child) {
      FindMoveExact(j, LevelsOf(d0), s, t, pick);
    }
  }

  /** Recording a label and moving on. */
  lemma GatherLabel(j: Job, d0: Dsu, s: State, t: nat)
    requires GatherInv(j, d0, s) && t < j.Threads() && s.ws[t].Looking? && s.ws[t].f.Found?
    ensures s.ws[t].pos < j.N() && GatherInv(j, d0, LabelMove(j, s, t))
  {
    LabelMoveWorkers(j, s, t);
    LabelMoveLabels(j, s, t);
    LabelMoveReserves(j, s, t);
    if |j.lo| == 2 || Distinct(j.child) {
      LabelMoveExact(j, LevelsOf(d0), s, t);
    }
  }

  /** The atomic capture of one counter. */
  lemma GatherCapture(j: Job, d0: Dsu, s: State, t: nat, l: nat)
    requires GatherInv(j, d0, s) && t < j.Threads() && s.ws[t].Capturing? && l in s.ws[t].todo
    ensures l < j.N() && GatherInv(j, d0, CaptureMove(j, s, t, l))
  {
    TodoBelow(j, s, t, l);
    CaptureMoveWorkers(j, s, t, l);
    CaptureMoveReserves(j, s, t, l);
    if |j.lo| == 2 || Distinct(j.child) {
      CaptureMoveExact(j, LevelsOf(d0), s, t, l);
    }
  }

  lemma StartWorker(j: Job, d: Dsu, t: nat)
    requires j.Valid() && d.Valid() && d.Size() == j.N() && t < j.Threads()
    ensures WorkerInv(j, InitState(j, d), t)
    ensures InitState(j, d).ws[t].pos == j.lo[t] < j.N()
  {
    assert j.lo[t] < j.lo[t + 1] <= j.N();
    ParentUp(d, j.child[j.lo[t]]);
  }

  lemma StartUnlabelled(j: Job, d: Dsu, k: nat)
    requires j.Valid() && d.Valid() && d.Size() == j.N() && k < j.N()
    ensures !Labelled(j, InitState(j, d), k) && Reserved(j, InitState(j, d).lab, InitState(j, d).idx, k) == {}
  {
    StartWorker(j, d, j.owner[k]);
  }

  lemma StartExact(j: Job, d: Dsu)
    requires j.Valid() && d.Valid() && d.Size() == j.N() && (|j.lo| == 2 || Distinct(j.child))
    requires Shape(j, InitState(j, d))
    ensures ExactSoFar(j, LevelsOf(d), InitState(j, d))
  {
    var s := InitState(j, d);
    LevelsOfOk(d);
    forall k: nat | k < j.N()
      ensures !Labelled(j, s, k)
    {
      StartUnlabelled(j, d, k);
    }
    forall t: nat | t < j.Threads()
      ensures FindExact(j, LevelsOf(d), d, s.ws[t])
    {
      StartWorker(j, d, t);
    }
  }

  lemma StartShape(j: Job, d: Dsu)
    requires j.Valid() && d.Valid() && d.Size() == j.N()
    ensures Workers(j, InitState(j, d))
  {
    var s := InitState(j, d);
    forall t: nat | t < j.Threads()
      ensures WorkerInv(j, s, t)
    {
      StartWorker(j, d, t);
    }
  }

  lemma StartLabels(j: Job, d: Dsu)
    requires j.Valid() && d.Valid() && d.Size() == j.N() && Workers(j, InitState(j, d))
    ensures LabelsOk(j, InitState(j, d)) && Reservations(j, InitState(j, d))
  {
    var s := InitState(j, d);
    forall k: nat | k < j.N()
      ensures !Labelled(j, s, k) && Counted(j, s, k)
    {
      StartUnlabelled(j, d, k);
    }
  }

  lemma GatherStart(j: Job, d: Dsu)
    requires j.Valid() && d.Valid() && d.Size() == j.N()
    ensures GatherInv(j, d, InitState(j, d))
  {
    StartShape(j, d);
    StartLabels(j, d);
    if |j.lo| == 2 || Distinct(j.child) {
      StartExact(j, d);
    }
  }
}
