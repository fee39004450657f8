// A run of the labelling phase that files one vertex of each of two sets wrongly and every
// other vertex under its root (src/cc_sketch_alg.cpp, lines 386-419).

module SplitLabels {
  import opened Counting
  import opened DsuSpec
  import opened DsuConcurrent
  import opened DsuFindRace
  import opened Jobs
  import opened Gather
  import opened GatherRuns
  import opened LabelRace

  // A thread that works alone for a while finds the root

  /** Only parents inside the set of x have changed. */
  ghost predicate SameOutside(d: Dsu, e: Dsu, x: nat) {
    && SameRoots(d, e) && x < d.Size()
    && forall v: nat | v < d.Size() && !d.SameSet(v, x) :: e.parent[v] == d.parent[v]
  }

  lemma StepOutside(d: Dsu, x: nat, f: Find, pick: nat)
    requires d.Valid() && x < d.Size() && FindInv(d, x, f) && !f.Found?
    ensures SameOutside(d, FindStep(d, f, pick).0, x)
  {
    FindStepKeeps(d, x, f, pick);
  }

  lemma OutsideTrans(d: Dsu, e: Dsu, h: Dsu, x: nat)
    requires SameOutside(d, e, x) && SameOutside(e, h, x)
    ensures SameOutside(d, h, x)
  {
    SameRootsTrans(d, e, h);
  }

  function Put(s: State, t: nat, pos: nat, e: Dsu, f: Find): State
    requires t < |s.ws|
  {
    s.(d := e, ws := s.ws[t := Looking(pos, f)])
  }

  lemma SoloStep(j: Job, d0: Dsu, s0: State, s: State, t: nat, pos: nat, e: Dsu, f: Find)
    requires t < |s.ws| && GatherInv(j, d0, Put(s, t, pos, e, f)) && Reaches(j, s0, Put(s, t, pos, e, f)) && !f.Found?
    ensures e.Valid() && InRange(e.Size(), f)
    ensures var (h, g) := FindStep(e, f, 0);
      GatherInv(j, d0, Put(s, t, pos, h, g)) && Reaches(j, s0, Put(s, t, pos, h, g))
  {
    var a := Put(s, t, pos, e, f);
    assert WorkerInv(j, a, t);
    var (h, g) := FindStep(e, f, 0);
    assert FindMove(a, t, 0).ws == Put(s, t, pos, h, g).ws;
    assert Moves(j, a, t, 0, 0, Put(s, t, pos, h, g));
    MoveKeeps(j, d0, a, t, 0, 0, Put(s, t, pos, h, g));
    ReachesNext(j, s0, a, t, 0, 0, Put(s, t, pos, h, g));
  }

  lemma SoloFacts(j: Job, d0: Dsu, s: State, t: nat, pos: nat, e: Dsu, f: Find)
    requires t < |s.ws| && GatherInv(j, d0, Put(s, t, pos, e, f))
    ensures pos < j.N() && j.child[pos] < e.Size() && e.Valid() && FindInv(e, j.child[pos], f) && SameRoots(d0, e)
  {
    assert WorkerInv(j, Put(s, t, pos, e, f), t);
    assert j.lo[t + 1] <= j.N();
  }

  lemma SoloFind(j: Job, d0: Dsu, s0: State, s: State, t: nat, pos: nat, f0: Find) returns (e: Dsu)
    requires GatherInv(j, d0, s) && Reaches(j, s0, s) && t < |s.ws| && s.ws[t] == Looking(pos, f0) && pos < j.N()
    requires InRange(s.d.Size(), f0) && Current(s.d, f0)
    ensures SameOutside(s.d, e, j.child[pos])
    ensures var r := Put(s, t, pos, e, Found(d0.Root(j.child[pos]))); GatherInv(j, d0, r) && Reaches(j, s0, r)
  {
    var f;
    e, f := s.d, f0;
    assert Put(s, t, pos, e, f) == s;
    SoloFacts(j, d0, s, t, pos, e, f);
    while !f.Found?
      invariant GatherInv(j, d0, Put(s, t, pos, e, f)) && Reaches(j, s0, Put(s, t, pos, e, f))
      invariant InRange(e.Size(), f) && Current(e, f) && SameOutside(s.d, e, j.child[pos])
      decreases FindMeasure(e, f)
    {
      SoloFacts(j, d0, s, t, pos, e, f);
      SoloStep(j, d0, s0, s, t, pos, e, f);
      FindStepKeeps(e, j.child[pos], f, 0);
      CurrentStep(e, j.child[pos], f, 0);
      StepOutside(e, j.child[pos], f, 0);
      var (h, g) := FindStep(e, f, 0);
      OutsideTrans(s.d, e, h, j.child[pos]);
      e, f := h, g;
    }
    SoloFacts(j, d0, s, t, pos, e, f);
    assert f == Found(d0.Root(j.child[pos]));
  }

  /** A worker about to begin a search, or past all of them. */
  ghost predicate Rested(j: Job, w: Worker) {
    w.Looking? ==> w.pos < j.N() && w.f == StartFind(j.child[w.pos])
  }

  /** Thread t has recorded l for its position pos and gone on. */
  ghost predicate WentOn(j: Job, s: State, r: State, t: nat, pos: nat, l: nat)
    requires Shape(j, s) && Shape(j, r)
  {
    && t < j.Threads() && pos < j.N() && r.lab == s.lab[pos := l] && Labelled(j, r, pos)
    && Rested(j, r.ws[t]) && (pos + 1 < j.lo[t + 1] ==> r.ws[t] == Looking(pos + 1, StartFind(j.child[pos + 1])))
    && (forall u: nat | u < j.Threads() && u != t :: r.ws[u] == s.ws[u])
    && (forall k: nat | k < j.N() && k != pos :: Labelled(j, r, k) <==> Labelled(j, s, k))
  }

  lemma Records(j: Job, d0: Dsu, s0: State, s: State, t: nat, pos: nat, l: nat) returns (r: State)
    requires GatherInv(j, d0, s) && Reaches(j, s0, s) && t < j.Threads() && s.ws[t] == Looking(pos, Found(l))
    ensures GatherInv(j, d0, r) && Reaches(j, s0, r) && WentOn(j, s, r, t, pos, l) && r.d == s.d
    ensures |Unlabelled(j, r)| < |Unlabelled(j, s)|
  {
    LabelWentOn(j, s, t, pos, l);
    r := LabelMove(j, s, t);
    LabelReached(j, d0, s0, s, t);
  }

  lemma LabelReached(j: Job, d0: Dsu, s0: State, s: State, t: nat)
    requires GatherInv(j, d0, s) && Reaches(j, s0, s) && t < j.Threads() && s.ws[t].Looking? && s.ws[t].f.Found?
    requires s.ws[t].pos < j.N()
    ensures var r := LabelMove(j, s, t);
      GatherInv(j, d0, r) && Reaches(j, s0, r) && |Unlabelled(j, r)| < |Unlabelled(j, s)|
  {
    var r := LabelMove(j, s, t);
    assert Moves(j, s, t, 0, 0, r);
    MoveKeeps(j, d0, s, t, 0, 0, r);
    ReachesNext(j, s0, s, t, 0, 0, r);
    LabelProgress(j, s, t);
  }

  lemma LabelWentOn(j: Job, s: State, t: nat, pos: nat, l: nat)
    requires Workers(j, s) && t < j.Threads() && s.ws[t] == Looking(pos, Found(l))
    ensures pos < j.N() && Shape(j, LabelMove(j, s, t)) && WentOn(j, s, LabelMove(j, s, t), t, pos, l)
  {
    assert WorkerInv(j, s, t);
    assert j.lo[t + 1] <= j.N() && j.owner[pos] == t;
  }

  /** One whole search of thread t, undisturbed, and its label. */
  lemma SoloLabel(j: Job, d0: Dsu, s0: State, s: State, t: nat, pos: nat, f0: Find) returns (r: State)
    requires GatherInv(j, d0, s) && Reaches(j, s0, s) && t < |s.ws| && s.ws[t] == Looking(pos, f0) && pos < j.N()
    requires InRange(s.d.Size(), f0) && Current(s.d, f0)
    ensures GatherInv(j, d0, r) && Reaches(j, s0, r) && j.child[pos] < d0.Size()
    ensures WentOn(j, s, r, t, pos, d0.Root(j.child[pos])) && SameOutside(s.d, r.d, j.child[pos])
    ensures |Unlabelled(j, r)| < |Unlabelled(j, s)|
  {
    assert Put(s, t, pos, s.d, f0) == s;
    SoloFacts(j, d0, s, t, pos, s.d, f0);
    var e := SoloFind(j, d0, s0, s, t, pos, f0);
    var l := d0.Root(j.child[pos]);
    var m := Put(s, t, pos, e, Found(l));
    r := Records(j, d0, s0, m, t, pos, l);
    SameLabelled(j, s, m, r, t, pos, l);
  }

  lemma SameLabelled(j: Job, s: State, m: State, r: State, t: nat, pos: nat, l: nat)
    requires Shape(j, s) && Shape(j, m) && Shape(j, r) && WentOn(j, m, r, t, pos, l) && m.lab == s.lab
    requires s.ws[t].Looking? && s.ws[t].pos == pos && m.ws == s.ws[t := m.ws[t]] && m.ws[t].Looking? && m.ws[t].pos == pos
    ensures WentOn(j, s, r, t, pos, l) && |Unlabelled(j, m)| == |Unlabelled(j, s)|
  {
    assert forall k: nat | k < j.N() :: Labelled(j, m, k) <==> Labelled(j, s, k);
    assert Unlabelled(j, m) == Unlabelled(j, s);
  }

  // Everyone else gets it right

  /** The labels recorded since s are roots. */
  ghost predicate RightSince(j: Job, d0: Dsu, s: State, r: State)
    requires Shape(j, s) && Shape(j, r) && d0.Valid() && d0.Size() == j.N()
  {
    forall k: nat | k < j.N() && Labelled(j, r, k) && !Labelled(j, s, k) :: r.lab[k] == d0.Root(j.child[k])
  }

  ghost predicate AllRested(j: Job, s: State) {
    forall t: nat | t < |s.ws| :: Rested(j, s.ws[t])
  }

  lemma RightStep(j: Job, d0: Dsu, s: State, r: State, q: State, t: nat, pos: nat)
    requires Shape(j, s) && Shape(j, r) && Shape(j, q) && d0.Valid() && d0.Size() == j.N() && pos < j.N()
    requires RightSince(j, d0, s, r) && Keeps(j, s, r) && AllRested(j, r)
    requires WentOn(j, r, q, t, pos, d0.Root(j.child[pos])) && !Labelled(j, r, pos)
    ensures RightSince(j, d0, s, q) && Keeps(j, s, q) && AllRested(j, q)
  {
  }

  lemma CaptureStep(j: Job, d0: Dsu, s0: State, s: State, r: State, t: nat) returns (q: State)
    requires GatherInv(j, d0, r) && Reaches(j, s0, r) && t < |r.ws| && r.ws[t].Capturing? && r.ws[t].todo != {}
    requires Shape(j, s) && d0.Valid() && d0.Size() == j.N()
    requires RightSince(j, d0, s, r) && Keeps(j, s, r) && AllRested(j, r)
    ensures GatherInv(j, d0, q) && Reaches(j, s0, q) && RightSince(j, d0, s, q) && Keeps(j, s, q) && AllRested(j, q)
    ensures Unlabelled(j, q) == Unlabelled(j, r) && Total(CaptureLeft(q)) < Total(CaptureLeft(r))
  {
    var l, x := CanMove(j, d0, r, t, 0);
    q := x;
    MoveKeeps(j, d0, r, t, 0, l, q);
    ReachesNext(j, s0, r, t, 0, l, q);
    CaptureProgress(j, r, t, l);
    assert forall k: nat | k < j.N() :: Labelled(j, q, k) <==> Labelled(j, r, k);
  }

  lemma LookStep(j: Job, d0: Dsu, s0: State, s: State, r: State, t: nat) returns (q: State)
    requires GatherInv(j, d0, r) && Reaches(j, s0, r) && t < |r.ws| && r.ws[t].Looking?
    requires Shape(j, s) && d0.Valid() && d0.Size() == j.N()
    requires RightSince(j, d0, s, r) && Keeps(j, s, r) && AllRested(j, r)
    ensures GatherInv(j, d0, q) && Reaches(j, s0, q) && RightSince(j, d0, s, q) && Keeps(j, s, q) && AllRested(j, q)
    ensures |Unlabelled(j, q)| < |Unlabelled(j, r)|
  {
    assert Rested(j, r.ws[t]) && WorkerInv(j, r, t);
    var pos := r.ws[t].pos;
    assert j.owner[pos] == t;
    q := SoloLabel(j, d0, s0, r, t, pos, r.ws[t].f);
    RightStep(j, d0, s, r, q, t, pos);
  }

  /** From workers at rest, some run finishes with every further label right. */
  lemma FinishRight(j: Job, d0: Dsu, s0: State, s: State) returns (r: State)
    requires GatherInv(j, d0, s) && Reaches(j, s0, s) && AllRested(j, s) && d0.Valid() && d0.Size() == j.N()
    ensures GatherInv(j, d0, r) && Reaches(j, s0, r) && AllIdle(r) && Keeps(j, s, r) && RightSince(j, d0, s, r)
  {
    r := s;
    while !AllIdle(r)
      invariant GatherInv(j, d0, r) && Reaches(j, s0, r) && Keeps(j, s, r) && RightSince(j, d0, s, r) && AllRested(j, r)
      decreases |Unlabelled(j, r)|, Total(CaptureLeft(r))
    {
      var t: nat :| t < |r.ws| && !Idle(r.ws[t]);
      if r.ws[t].Looking? {
        r := LookStep(j, d0, s0, s, r, t);
      } else {
        r := CaptureStep(j, d0, s0, s, r, t);
      }
    }
  }

  // The race, staged at two positions

  /** The vertex at p has the vertex at q as its grandparent, and too many links above it. */
  predicate Stacked(j: Job, d: Dsu, p: nat, q: nat)
    requires d.Valid()
  {
    && p < |j.child| && q < |j.child| && j.child[p] < d.Size() && j.child[q] == Grand(d, j.child[p])
    && !d.IsRoot(Grand(d, Grand(d, j.child[p])))
  }

  lemma RaceReached(j: Job, d0: Dsu, s0: State, s: State, w: nat, p: nat, q: nat) returns (r: State)
    requires Ready(j, d0, s, w, p, q) && GatherInv(j, d0, s0) && Reaches(j, s0, s) && s.d.Valid() && Stacked(j, s.d, p, q)
    ensures GatherInv(j, d0, r) && Reaches(j, s0, r) && r.lab == s.lab
    ensures r.d.parent == s.d.parent[j.child[p] := j.child[q]][j.child[q] := Grand(s.d, j.child[q])]
    ensures r.ws == s.ws[w := Looking(p, Found(Grand(s.d, j.child[q])))][w + 1 := Looking(q, Advance(j.child[q]))]
  {
    var end := RaceOf(s.d, j.child[p]);
    LiftRace(j, d0, s0, s, w, p, q, end, j.child[p]);
    r := Lift(s, w, p, q, end);
  }

  /** Threads w and w + 1 have labelled p and q: p with l, q with its root. */
  ghost predicate Split(j: Job, d0: Dsu, s: State, r: State, w: nat, p: nat, q: nat, l: nat)
    requires Shape(j, s) && Shape(j, r) && d0.Valid() && d0.Size() == j.N()
  {
    && w + 1 < j.Threads() && p < j.N() && q < j.N() && p != q
    && r.lab == s.lab[p := l][q := d0.Root(j.child[q])] && SameOutside(s.d, r.d, j.child[p])
    && Labelled(j, r, p) && Labelled(j, r, q)
    && (forall k: nat | k < j.N() && k != p && k != q :: Labelled(j, r, k) <==> Labelled(j, s, k))
    && (forall u: nat | u < j.Threads() && u != w && u != w + 1 :: r.ws[u] == s.ws[u])
    && Rested(j, r.ws[w]) && Rested(j, r.ws[w + 1])
    && (p + 1 < j.lo[w + 1] ==> r.ws[w] == Looking(p + 1, StartFind(j.child[p + 1])))
    && (q + 1 < j.lo[w + 2] ==> r.ws[w + 1] == Looking(q + 1, StartFind(j.child[q + 1])))
  }

  lemma RaceOutside(j: Job, s: State, r: State, p: nat, q: nat)
    requires SameRoots(s.d, r.d) && Stacked(j, s.d, p, q)
    requires r.d.parent == s.d.parent[j.child[p] := j.child[q]][j.child[q] := Grand(s.d, j.child[q])]
    ensures SameOutside(s.d, r.d, j.child[p])
  {
    InOneSet(s.d, j.child[p]);
  }

  lemma RaceRound(j: Job, d0: Dsu, s0: State, s: State, w: nat, p: nat, q: nat) returns (r: State)
    requires Ready(j, d0, s, w, p, q) && GatherInv(j, d0, s0) && Reaches(j, s0, s) && s.d.Valid() && Stacked(j, s.d, p, q)
    ensures GatherInv(j, d0, r) && Reaches(j, s0, r)
    ensures d0.Valid() && d0.Size() == j.N() && Split(j, d0, s, r, w, p, q, Grand(s.d, j.child[q]))
  {
    Positions(j, d0, s, w, p, q);
    var half := WrongHalf(j, d0, s0, s, w, p, q);
    r := RightHalf(j, d0, s0, s, half, w, p, q);
  }

  /** The first thread has recorded its wrong label, the second is still halving its path. */
  ghost predicate HalfSplit(j: Job, s: State, r: State, w: nat, p: nat, q: nat, l: nat)
    requires Shape(j, s) && Shape(j, r)
  {
    && w + 1 < j.Threads() && p < j.N() && q < j.N()
    && r.lab == s.lab[p := l] && SameOutside(s.d, r.d, j.child[p]) && Labelled(j, r, p)
    && (forall k: nat | k < j.N() && k != p :: Labelled(j, r, k) <==> Labelled(j, s, k))
    && (forall u: nat | u < j.Threads() && u != w && u != w + 1 :: r.ws[u] == s.ws[u]) && Rested(j, r.ws[w])
    && (p + 1 < j.lo[w + 1] ==> r.ws[w] == Looking(p + 1, StartFind(j.child[p + 1])))
    && r.ws[w + 1] == Looking(q, Advance(j.child[q]))
  }

  lemma WrongHalf(j: Job, d0: Dsu, s0: State, s: State, w: nat, p: nat, q: nat) returns (r: State)
    requires Ready(j, d0, s, w, p, q) && GatherInv(j, d0, s0) && Reaches(j, s0, s) && s.d.Valid() && Stacked(j, s.d, p, q)
    ensures GatherInv(j, d0, r) && Reaches(j, s0, r) && HalfSplit(j, s, r, w, p, q, Grand(s.d, j.child[q]))
  {
    var r1 := RaceReached(j, d0, s0, s, w, p, q);
    RaceOutside(j, s, r1, p, q);
    r := Records(j, d0, s0, r1, w, p, Grand(s.d, j.child[q]));
    HalfFacts(j, s, r1, r, w, p, q, Grand(s.d, j.child[q]));
  }

  lemma HalfFacts(j: Job, s: State, m: State, r: State, w: nat, p: nat, q: nat, y: nat)
    requires Shape(j, s) && Shape(j, m) && Shape(j, r) && w + 1 < j.Threads() && p < j.N() && q < j.N()
    requires m.lab == s.lab && SameOutside(s.d, m.d, j.child[p])
    requires s.ws[w].Looking? && s.ws[w].pos == p && s.ws[w + 1].Looking? && s.ws[w + 1].pos == q
    requires m.ws == s.ws[w := Looking(p, Found(y))][w + 1 := Looking(q, Advance(j.child[q]))]
    requires WentOn(j, m, r, w, p, y) && r.d == m.d
    ensures HalfSplit(j, s, r, w, p, q, y)
  {
    assert forall k: nat | k < j.N() :: Labelled(j, m, k) <==> Labelled(j, s, k);
  }

  lemma RightHalf(j: Job, d0: Dsu, s0: State, s: State, half: State, w: nat, p: nat, q: nat) returns (r: State)
    requires Shape(j, s) && p < j.N() && q < j.N() && p != q && j.child[p] < s.d.Size() && j.child[q] < s.d.Size()
    requires GatherInv(j, d0, half) && Reaches(j, s0, half) && Stacked(j, s.d, p, q)
    requires HalfSplit(j, s, half, w, p, q, Grand(s.d, j.child[q]))
    ensures GatherInv(j, d0, r) && Reaches(j, s0, r)
    ensures d0.Valid() && d0.Size() == j.N() && Split(j, d0, s, r, w, p, q, Grand(s.d, j.child[q]))
  {
    HalfReady(j, s, half, w, p, q, Grand(s.d, j.child[q]));
    r := SoloLabel(j, d0, s0, half, w + 1, q, Advance(j.child[q]));
    SplitAfter(j, d0, s, half, r, w, p, q);
  }

  lemma HalfReady(j: Job, s: State, half: State, w: nat, p: nat, q: nat, l: nat)
    requires Shape(j, s) && Shape(j, half) && HalfSplit(j, s, half, w, p, q, l) && j.child[q] < s.d.Size()
    ensures w + 1 < |half.ws| && half.ws[w + 1] == Looking(q, Advance(j.child[q])) && half.d.Valid()
    ensures InRange(half.d.Size(), Advance(j.child[q])) && Current(half.d, Advance(j.child[q]))
  {
  }

  lemma SplitAfter(j: Job, d0: Dsu, s: State, half: State, r: State, w: nat, p: nat, q: nat)
    requires Shape(j, s) && Shape(j, half) && Shape(j, r) && d0.Valid() && d0.Size() == j.N()
    requires s.d.Valid() && Stacked(j, s.d, p, q) && j.child[q] < s.d.Size() && p != q && j.child[q] < d0.Size()
    requires HalfSplit(j, s, half, w, p, q, Grand(s.d, j.child[q]))
    requires WentOn(j, half, r, w + 1, q, d0.Root(j.child[q])) && SameOutside(half.d, r.d, j.child[q])
    ensures Split(j, d0, s, r, w, p, q, Grand(s.d, j.child[q]))
  {
    HalvesOutside(j, s, half, r, p, q);
    SplitFacts(j, d0, s, half, r, w, p, q, Grand(s.d, j.child[q]));
  }

  lemma HalvesOutside(j: Job, s: State, half: State, r: State, p: nat, q: nat)
    requires s.d.Valid() && Stacked(j, s.d, p, q) && j.child[q] < s.d.Size()
    requires SameOutside(s.d, half.d, j.child[p]) && SameOutside(half.d, r.d, j.child[q])
    ensures SameOutside(s.d, r.d, j.child[p])
  {
    InOneSet(s.d, j.child[p]);
    OutsideTwice(s.d, half.d, r.d, j.child[p], j.child[q]);
  }

  lemma SplitFacts(j: Job, d0: Dsu, s: State, half: State, r: State, w: nat, p: nat, q: nat, y: nat)
    requires Shape(j, s) && Shape(j, half) && Shape(j, r) && d0.Valid() && d0.Size() == j.N()
    requires HalfSplit(j, s, half, w, p, q, y) && p != q && SameOutside(s.d, r.d, j.child[p])
    requires j.child[q] < d0.Size() && WentOn(j, half, r, w + 1, q, d0.Root(j.child[q]))
    ensures Split(j, d0, s, r, w, p, q, y)
  {
    assert Labelled(j, r, p) <==> Labelled(j, half, p);
    assert r.ws[w] == half.ws[w];
  }

  lemma InOneSet(d: Dsu, a: nat)
    requires d.Valid() && a < d.Size()
    ensures d.SameSet(a, Grand(d, a))
  {
    assert d.Root(a) == d.Root(d.parent[a]) == d.Root(Grand(d, a));
  }

  lemma Positions(j: Job, d0: Dsu, s: State, w: nat, p: nat, q: nat)
    requires Ready(j, d0, s, w, p, q)
    ensures p != q && !Labelled(j, s, p) && !Labelled(j, s, q) && j.child[q] < d0.Size() && SameRoots(d0, s.d)
  {
    assert WorkerInv(j, s, w) && WorkerInv(j, s, w + 1);
    assert j.owner[p] == w && j.owner[q] == w + 1;
  }

  lemma OutsideTwice(d: Dsu, e: Dsu, h: Dsu, x: nat, y: nat)
    requires SameOutside(d, e, x) && SameOutside(e, h, y) && d.SameSet(x, y)
    ensures SameOutside(d, h, x)
  {
    SameRootsTrans(d, e, h);
  }

  // Two sets at once

  /** A race in one set leaves the chains of other sets alone. */
  lemma StackedStays(j: Job, d: Dsu, e: Dsu, x: nat, p: nat, q: nat)
    requires SameOutside(d, e, x) && Stacked(j, d, p, q) && !d.SameSet(j.child[p], x)
    ensures Stacked(j, e, p, q) && Grand(e, j.child[q]) == Grand(d, j.child[q])
  {
    var a := j.child[p];
    var b := d.parent[a];
    var u := d.parent[b];
    var w := d.parent[u];
    assert d.Root(a) == d.Root(b) == d.Root(u) == d.Root(w) == d.Root(d.parent[w]);
  }

  lemma NoneLabelled(j: Job, d: Dsu)
    requires j.Valid() && d.Valid() && d.Size() == j.N()
    ensures Shape(j, InitState(j, d)) && AllRested(j, InitState(j, d))
    ensures forall k: nat | k < j.N() :: !Labelled(j, InitState(j, d), k)
  {
    GatherStart(j, d);
    forall k: nat | k < j.N()
      ensures !Labelled(j, InitState(j, d), k)
    {
      StartUnlabelled(j, d, k);
    }
    forall t: nat | t < j.Threads()
      ensures Rested(j, InitState(j, d).ws[t])
    {
      StartWorker(j, d, t);
    }
  }

  // Whole runs

  type Odd = map<nat, nat>

  const NONE_ODD: Odd := map[]

  function Also(odd: Odd, k: nat, l: nat): Odd {
    odd[k := l]
  }

  /** Where odd says so, a label is what odd says; everywhere else it is the root. */
  ghost predicate FiledBut(j: Job, d: Dsu, lab: seq<nat>, odd: Odd)
    requires d.Valid()
  {
    && |lab| == j.N() == d.Size() && (forall k: nat | k < j.N() :: j.child[k] < d.Size())
    && forall k: nat | k < j.N() :: lab[k] == if k in odd then odd[k] else d.Root(j.child[k])
  }

  /** The same of one label, once it is recorded. */
  ghost predicate LabelSoFar(j: Job, d: Dsu, s: State, odd: Odd, k: nat)
    requires Shape(j, s) && d.Valid() && d.Size() == j.N() && k < j.N()
  {
    Labelled(j, s, k) ==> j.child[k] < d.Size() && s.lab[k] == if k in odd then odd[k] else d.Root(j.child[k])
  }

  ghost predicate OddLabelled(j: Job, s: State, odd: Odd)
    requires Shape(j, s)
  {
    forall k: nat | k in odd :: k < j.N() && Labelled(j, s, k)
  }

  /** The same of the labels recorded so far, by threads at rest. */
  ghost predicate SoFar(j: Job, d: Dsu, s: State, odd: Odd)
    requires Shape(j, s) && d.Valid() && d.Size() == j.N()
  {
    AllRested(j, s) && OddLabelled(j, s, odd) && forall k: nat | k < j.N() :: LabelSoFar(j, d, s, odd, k)
  }

  /** A race is one more label that is not a root. */
  lemma SoFarRace(j: Job, d: Dsu, s: State, r: State, w: nat, p: nat, q: nat, l: nat, odd: Odd)
    requires Shape(j, s) && Shape(j, r) && d.Valid() && d.Size() == j.N() && SoFar(j, d, s, odd)
    requires Split(j, d, s, r, w, p, q, l) && !Labelled(j, s, p) && !Labelled(j, s, q)
    requires j.child[p] < d.Size() && j.child[q] < d.Size()
    ensures SoFar(j, d, r, Also(odd, p, l))
  {
    RaceRests(j, d, s, r, w, p, q, l);
    RaceOdd(j, d, s, r, w, p, q, l, odd);
    forall k: nat | k < j.N()
      ensures LabelSoFar(j, d, r, Also(odd, p, l), k)
    {
      RaceLabel(j, d, s, r, w, p, q, l, odd, k);
    }
  }

  lemma RaceOdd(j: Job, d: Dsu, s: State, r: State, w: nat, p: nat, q: nat, l: nat, odd: Odd)
    requires Shape(j, s) && Shape(j, r) && d.Valid() && d.Size() == j.N() && OddLabelled(j, s, odd)
    requires Split(j, d, s, r, w, p, q, l)
    ensures OddLabelled(j, r, Also(odd, p, l))
  {
  }

  lemma RaceLabel(j: Job, d: Dsu, s: State, r: State, w: nat, p: nat, q: nat, l: nat, odd: Odd, k: nat)
    requires Shape(j, s) && Shape(j, r) && d.Valid() && d.Size() == j.N() && k < j.N()
    requires OddLabelled(j, s, odd) && LabelSoFar(j, d, s, odd, k)
    requires Split(j, d, s, r, w, p, q, l) && !Labelled(j, s, p) && !Labelled(j, s, q)
    requires j.child[p] < d.Size() && j.child[q] < d.Size()
    ensures LabelSoFar(j, d, r, Also(odd, p, l), k)
  {
    assert q !in odd;
    assert k != p && k != q ==> (Labelled(j, r, k) <==> Labelled(j, s, k));
  }

  lemma RaceRests(j: Job, d: Dsu, s: State, r: State, w: nat, p: nat, q: nat, l: nat)
    requires Shape(j, s) && Shape(j, r) && d.Valid() && d.Size() == j.N() && AllRested(j, s) && Split(j, d, s, r, w, p, q, l)
    ensures AllRested(j, r)
  {
    forall t: nat | t < |r.ws|
      ensures Rested(j, r.ws[t])
    {
      assert Rested(j, s.ws[t]);
    }
  }

  /** A race of two threads, and where it leaves the run. */
  lemma OneRace(j: Job, d: Dsu, s: State, w: nat, p: nat, q: nat, odd: Odd) returns (r: State)
    requires Ready(j, d, s, w, p, q) && Reaches(j, InitState(j, d), s) && GatherInv(j, d, InitState(j, d))
    requires d.Valid() && d.Size() == j.N() && s.d.Valid() && Stacked(j, s.d, p, q) && SoFar(j, d, s, odd)
    ensures GatherInv(j, d, r) && Reaches(j, InitState(j, d), r)
    ensures Split(j, d, s, r, w, p, q, Grand(s.d, j.child[q]))
    ensures SoFar(j, d, r, Also(odd, p, Grand(s.d, j.child[q])))
  {
    Positions(j, d, s, w, p, q);
    r := RaceRound(j, d, InitState(j, d), s, w, p, q);
    SoFarRace(j, d, s, r, w, p, q, Grand(s.d, j.child[q]), odd);
  }

  /** Everyone else gets it right. */
  lemma SoFarEnds(j: Job, d: Dsu, s: State, odd: Odd) returns (r: State)
    requires j.Valid() && GatherInv(j, d, s) && Reaches(j, InitState(j, d), s) && d.Valid() && d.Size() == j.N() && SoFar(j, d, s, odd)
    requires forall k: nat | k < j.N() :: j.child[k] < d.Size()
    ensures Result(j, d, r) && FiledBut(j, d, r.lab, odd)
  {
    r := FinishRight(j, d, InitState(j, d), s);
    EndsLabelled(j, d, s, r, odd);
  }

  lemma EndsLabelled(j: Job, d: Dsu, s: State, r: State, odd: Odd)
    requires Shape(j, s) && Shape(j, r) && d.Valid() && d.Size() == j.N() && SoFar(j, d, s, odd)
    requires AllIdle(r) && Keeps(j, s, r) && RightSince(j, d, s, r) && forall k: nat | k < j.N() :: j.child[k] < d.Size()
    ensures FiledBut(j, d, r.lab, odd)
  {
    forall k: nat | k < j.N()
      ensures r.lab[k] == if k in odd then odd[k] else d.Root(j.child[k])
    {
      assert Idle(r.ws[j.owner[k]]);
      assert Labelled(j, r, k) && LabelSoFar(j, d, s, odd, k);
    }
  }

  /** Nobody is labelled at the start, and threads 0 and 1 are ready to race. */
  lemma RaceStarts(j: Job, d: Dsu)
    requires j.Valid() && d.Valid() && d.Size() == j.N() && j.Threads() >= 2
    ensures Shape(j, InitState(j, d)) && SoFar(j, d, InitState(j, d), NONE_ODD) && InitState(j, d).d == d
    ensures Ready(j, d, InitState(j, d), 0, 0, j.lo[1]) && Reaches(j, InitState(j, d), InitState(j, d))
  {
    NoneLabelled(j, d);
    StartsReady(j, d);
    ReachesItself(j, InitState(j, d));
  }

  /** A whole run of the labelling phase with exactly one label wrong. */
  lemma WrongInOneSet(j: Job, d: Dsu) returns (r: State)
    requires j.Valid() && d.Valid() && d.Size() == j.N() && j.Threads() >= 2 && Stacked(j, d, 0, j.lo[1])
    requires forall k: nat | k < j.N() :: j.child[k] < d.Size()
    ensures Result(j, d, r) && FiledBut(j, d, r.lab, Also(NONE_ODD, 0, Grand(d, j.child[j.lo[1]])))
  {
    RaceStarts(j, d);
    var m := OneRace(j, d, InitState(j, d), 0, 0, j.lo[1], NONE_ODD);
    r := SoFarEnds(j, d, m, Also(NONE_ODD, 0, Grand(d, j.child[j.lo[1]])));
  }

  /** Where the second race takes place: two threads further on, or one position further on. */
  predicate Seats(j: Job, w: nat, p: nat, q: nat) {
    || (w == 2 && |j.lo| > 4 && p == j.lo[2] && q == j.lo[3])
    || (w == 0 && |j.lo| > 2 && p == 1 < j.lo[1] && q == j.lo[1] + 1 < j.lo[2])
  }

  /** What the races need of the division and the union-find. */
  ghost predicate Staged(j: Job, d: Dsu, w: nat, p: nat, q: nat) {
    && j.Valid() && d.Valid() && d.Size() == j.N() && Seats(j, w, p, q) && p < j.N() && q < j.N()
    && (forall k: nat | k < j.N() :: j.child[k] < d.Size())
    && Stacked(j, d, 0, j.lo[1]) && Stacked(j, d, p, q) && !d.SameSet(j.child[p], j.child[0])
  }

  lemma SecondReady(j: Job, d: Dsu, m: State, w: nat, p: nat, q: nat, l: nat)
    requires j.Valid() && d.Valid() && d.Size() == j.N() && Seats(j, w, p, q) && p < j.N() && q < j.N() && j.lo[1] < j.N()
    requires GatherInv(j, d, m) && Split(j, d, InitState(j, d), m, 0, 0, j.lo[1], l)
    ensures Ready(j, d, m, w, p, q)
  {
    if w == 2 {
      StartWorker(j, d, 2);
      StartWorker(j, d, 3);
    }
  }

  /** A whole run of the labelling phase with exactly two labels wrong, in two different sets. */
  lemma WrongInTwoSets(j: Job, d: Dsu, w: nat, p: nat, q: nat) returns (r: State)
    requires Staged(j, d, w, p, q)
    ensures Result(j, d, r)
    ensures FiledBut(j, d, r.lab, Also(Also(NONE_ODD, 0, Grand(d, j.child[j.lo[1]])), p, Grand(d, j.child[q])))
  {
    var s := TwoRaces(j, d, w, p, q);
    r := SoFarEnds(j, d, s, Also(Also(NONE_ODD, 0, Grand(d, j.child[j.lo[1]])), p, Grand(d, j.child[q])));
  }

  /** The first race, and what it leaves to the second. */
  lemma FirstRace(j: Job, d: Dsu, w: nat, p: nat, q: nat) returns (m: State)
    requires Staged(j, d, w, p, q)
    ensures Ready(j, d, m, w, p, q) && Reaches(j, InitState(j, d), m) && GatherInv(j, d, InitState(j, d))
    ensures m.d.Valid() && Stacked(j, m.d, p, q) && Grand(m.d, j.child[q]) == Grand(d, j.child[q])
    ensures SoFar(j, d, m, Also(NONE_ODD, 0, Grand(d, j.child[j.lo[1]])))
  {
    var l := Grand(d, j.child[j.lo[1]]);
    RaceStarts(j, d);
    m := OneRace(j, d, InitState(j, d), 0, 0, j.lo[1], NONE_ODD);
    StackedStays(j, d, m.d, j.child[0], p, q);
    SecondReady(j, d, m, w, p, q, l);
  }

  lemma TwoRaces(j: Job, d: Dsu, w: nat, p: nat, q: nat) returns (s: State)
    requires Staged(j, d, w, p, q)
    ensures GatherInv(j, d, s) && Reaches(j, InitState(j, d), s)
    ensures SoFar(j, d, s, Also(Also(NONE_ODD, 0, Grand(d, j.child[j.lo[1]])), p, Grand(d, j.child[q])))
  {
    var l := Grand(d, j.child[j.lo[1]]);
    var m := FirstRace(j, d, w, p, q);
    s := OneRace(j, d, m, w, p, q, Also(NONE_ODD, 0, l));
  }
}
