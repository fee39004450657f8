// The answer handed to the user: a parallel snapshot of all roots, the count of
// components, and the component sets (src/return_types.cpp).

module Snapshot {
  import opened Counting
  import opened Graphs
  import opened DsuSpec
  import opened DsuConcurrent
  import opened DsuFindRace
  import opened DsuFar
  import Runs
  import opened Pairing

  datatype Worker = Free | Seeking(i: nat, f: Find)

  /** todo lists the iterations not started, got those finished; count is temp_cc. */
  datatype State = State(d: Dsu, ws: seq<Worker>, todo: set<nat>, got: set<nat>, lab: seq<nat>, count: nat)

  function StartMove(s: State, t: nat, i: nat): State
    requires t < |s.ws|
  {
    s.(ws := s.ws[t := Seeking(i, StartFind(i))], todo := s.todo - {i})
  }

  function SeekMove(s: State, t: nat, pick: nat): State
    requires t < |s.ws| && s.ws[t].Seeking? && s.d.Valid() && InRange(s.d.Size(), s.ws[t].f)
  {
    var (e, g) := FindStep(s.d, s.ws[t].f, pick);
    s.(d := e, ws := s.ws[t := Seeking(s.ws[t].i, g)])
  }

  /** Writing parent_arr[i] and, if i was its own root, counting it. */
  function RecordMove(s: State, t: nat): State
    requires t < |s.ws| && s.ws[t].Seeking? && s.ws[t].f.Found? && s.ws[t].i < |s.lab|
  {
    var i, r := s.ws[t].i, s.ws[t].f.r;
    s.(ws := s.ws[t := Free], got := s.got + {i}, lab := s.lab[i := r], count := if r == i then s.count + 1 else s.count)
  }

  // What every step keeps

  /** The vertices recorded as their own representative. */
  ghost function OwnRoots(lab: seq<nat>, got: set<nat>): set<nat> {
    set i | i in got && i < |lab| && lab[i] == i
  }

  ghost predicate LabelOk(d: Dsu, lab: seq<nat>, i: nat)
    requires d.Valid() && i < d.Size() && i < |lab|
  {
    lab[i] < d.Size() && d.SameSet(lab[i], i) && (d.IsRoot(i) ==> lab[i] == i)
  }

  ghost predicate WorkerOk(s: State, w: Worker)
    requires s.d.Valid()
  {
    w.Seeking? ==> w.i < s.d.Size() && w.i !in s.todo && w.i !in s.got && FindInv(s.d, w.i, w.f)
  }

  ghost predicate Busy(s: State, i: nat) {
    exists t: nat :: t < |s.ws| && s.ws[t].Seeking? && s.ws[t].i == i
  }

  ghost predicate Apart(s: State) {
    forall t: nat, u: nat | t < |s.ws| && u < |s.ws| && s.ws[t].Seeking? && s.ws[u].Seeking? && s.ws[t].i == s.ws[u].i :: t == u
  }

  /** What one worker or a low forest adds: nothing but roots is ever found. */
  ghost predicate WorkerExact(level: seq<nat>, s: State, w: Worker)
    requires s.d.Valid() && (|s.ws| == 1 || Levels(s.d, level))
  {
    w.Seeking? ==>
      InRange(s.d.Size(), w.f) && (if |s.ws| == 1 then Current(s.d, w.f) else w.i < s.d.Size() && Steady(s.d, level, w.i, w.f))
  }

  ghost predicate ExactSoFar(level: seq<nat>, s: State)
    requires s.d.Valid() && |s.lab| == s.d.Size()
  {
    && (|s.ws| == 1 || (Levels(s.d, level) && forall v: nat | v < |level| :: level[v] != HIGH))
    && (forall t: nat | t < |s.ws| :: WorkerExact(level, s, s.ws[t]))
    && (forall i: nat | i in s.got && i < |s.lab| :: s.lab[i] < s.d.Size() && s.d.IsRoot(s.lab[i]))
  }

  ghost predicate SnapInv(d0: Dsu, s: State) {
    && SameRoots(d0, s.d) && |s.lab| == s.d.Size()
    && s.todo <= Range(0, s.d.Size()) && s.got <= Range(0, s.d.Size()) && s.todo !! s.got
    && (forall t: nat | t < |s.ws| :: WorkerOk(s, s.ws[t])) && Apart(s)
    && (forall i: nat | i < s.d.Size() :: i in s.todo || i in s.got || Busy(s, i))
    && (forall i: nat | i < s.d.Size() && i in s.got :: LabelOk(s.d, s.lab, i))
    && s.count == |OwnRoots(s.lab, s.got)|
    && (|s.ws| == 1 || Low(d0) ==> ExactSoFar(LevelsOf(d0), s))
  }

  lemma BusyElsewhere(s: State, r: State, t: nat, i: nat)
    requires Busy(s, i) && t < |s.ws| == |r.ws| && r.ws == s.ws[t := r.ws[t]]
    requires s.ws[t].Seeking? ==> s.ws[t].i != i || (r.ws[t].Seeking? && r.ws[t].i == i)
    ensures Busy(r, i)
  {
    var u: nat :| u < |s.ws| && s.ws[u].Seeking? && s.ws[u].i == i;
    assert r.ws[u].Seeking? && r.ws[u].i == i;
  }

  lemma StartWorkers(s: State, t: nat, i: nat)
    requires s.d.Valid() && t < |s.ws| && i < s.d.Size() && i in s.todo && i !in s.got
    requires (forall u: nat | u < |s.ws| :: WorkerOk(s, s.ws[u])) && Apart(s)
    ensures var r := StartMove(s, t, i); (forall u: nat | u < |r.ws| :: WorkerOk(r, r.ws[u])) && Apart(r)
  {
    var r := StartMove(s, t, i);
    ParentUp(s.d, i);
    forall u: nat | u < |r.ws|
      ensures WorkerOk(r, r.ws[u]) && (r.ws[u].Seeking? && r.ws[u].i == i ==> u == t)
    {
      assert WorkerOk(s, s.ws[u]);
    }
  }

  lemma StartKeeps(d0: Dsu, s: State, t: nat, i: nat)
    requires SnapInv(d0, s) && t < |s.ws| && s.ws[t].Free? && i in s.todo
    ensures SnapInv(d0, StartMove(s, t, i))
  {
    var r := StartMove(s, t, i);
    StartWorkers(s, t, i);
    forall k: nat | k < r.d.Size()
      ensures k in r.todo || k in r.got || Busy(r, k)
    {
      if k == i {
        assert r.ws[t].Seeking? && r.ws[t].i == i;
      } else if Busy(s, k) {
        BusyElsewhere(s, r, t, k);
      }
    }
    if |s.ws| == 1 || Low(d0) {
      StartExact(LevelsOf(d0), s, t, i);
    }
  }

  lemma StartExact(level: seq<nat>, s: State, t: nat, i: nat)
    requires s.d.Valid() && |s.lab| == s.d.Size() && ExactSoFar(level, s)
    requires t < |s.ws| && i < s.d.Size()
    ensures ExactSoFar(level, StartMove(s, t, i))
  {
    var r := StartMove(s, t, i);
    forall u: nat | u < |r.ws|
      ensures WorkerExact(level, r, r.ws[u])
    {
      assert WorkerExact(level, s, s.ws[u]);
    }
  }

  lemma SeekExact(d0: Dsu, s: State, t: nat, pick: nat)
    requires SnapInv(d0, s) && t < |s.ws| && s.ws[t].Seeking? && !s.ws[t].f.Found? && InRange(s.d.Size(), s.ws[t].f)
    requires |s.ws| == 1 || Low(d0)
    ensures var r := SeekMove(s, t, pick); r.d.Valid() && |r.lab| == r.d.Size() && ExactSoFar(LevelsOf(d0), r)
  {
    var r, level := SeekMove(s, t, pick), LevelsOf(d0);
    assert WorkerOk(s, s.ws[t]) && WorkerExact(level, s, s.ws[t]);
    FindStepKeeps(s.d, s.ws[t].i, s.ws[t].f, pick);
    if |s.ws| == 1 {
      CurrentStep(s.d, s.ws[t].i, s.ws[t].f, pick);
    } else {
      SteadyStep(s.d, level, s.ws[t].i, s.ws[t].f, pick);
    }
    forall u: nat | u < |r.ws|
      ensures WorkerExact(level, r, r.ws[u])
    {
      SeekOthersExact(level, s, r, t, u);
    }
  }

  lemma SeekOthersExact(level: seq<nat>, s: State, r: State, t: nat, u: nat)
    requires s.d.Valid() && r.d.Valid() && t < |s.ws| == |r.ws| && u < |s.ws| && r.ws == s.ws[t := r.ws[t]]
    requires s.ws[t].Seeking? && Apart(s) && (|s.ws| == 1 || Lifts(s.d, r.d, level, s.ws[t].i))
    requires WorkerExact(level, r, r.ws[t]) && WorkerExact(level, s, s.ws[u])
    ensures WorkerExact(level, r, r.ws[u])
  {
    if u != t && s.ws[u].Seeking? {
      SteadyStable(s.d, r.d, level, s.ws[u].i, s.ws[t].i, s.ws[u].f);
    }
  }

  lemma SeekKeeps(d0: Dsu, s: State, t: nat, pick: nat)
    requires SnapInv(d0, s) && t < |s.ws| && s.ws[t].Seeking? && !s.ws[t].f.Found?
    ensures InRange(s.d.Size(), s.ws[t].f) && SnapInv(d0, SeekMove(s, t, pick))
  {
    assert WorkerOk(s, s.ws[t]);
    FindStepKeeps(s.d, s.ws[t].i, s.ws[t].f, pick);
    var r := SeekMove(s, t, pick);
    SameRootsTrans(d0, s.d, r.d);
    forall u: nat | u < |r.ws|
      ensures WorkerOk(r, r.ws[u])
    {
      assert WorkerOk(s, s.ws[u]);
      if u != t && s.ws[u].Seeking? {
        FindInvStable(s.d, r.d, s.ws[u].i, s.ws[u].f);
      }
    }
    forall k: nat | k < r.d.Size()
      ensures k in r.todo || k in r.got || Busy(r, k)
    {
      if Busy(s, k) {
        BusyElsewhere(s, r, t, k);
      }
    }
    forall i: nat | i < r.d.Size() && i in r.got
      ensures LabelOk(r.d, r.lab, i)
    {
      assert LabelOk(s.d, s.lab, i);
    }
    if |s.ws| == 1 || Low(d0) {
      SeekExact(d0, s, t, pick);
    }
  }

  /** A search that starts at a root ends there. */
  lemma RootFindsItself(d: Dsu, i: nat, r: nat)
    requires d.Valid() && i < d.Size() && Up(d, i, r) && d.IsRoot(i)
    ensures r == i
  {
  }

  lemma RecordCount(s: State, t: nat)
    requires t < |s.ws| && s.ws[t].Seeking? && s.ws[t].f.Found? && s.ws[t].i < |s.lab| && s.ws[t].i !in s.got
    requires s.count == |OwnRoots(s.lab, s.got)|
    ensures var r := RecordMove(s, t); r.count == |OwnRoots(r.lab, r.got)|
  {
    OwnRootsGrow(s.lab, s.got, s.ws[t].i, s.ws[t].f.r);
  }

  lemma OwnRootsGrow(lab: seq<nat>, got: set<nat>, i: nat, r: nat)
    requires i < |lab| && i !in got
    ensures |OwnRoots(lab[i := r], got + {i})| == |OwnRoots(lab, got)| + if r == i then 1 else 0
  {
    assert OwnRoots(lab[i := r], got + {i}) == OwnRoots(lab, got) + if r == i then {i} else {};
  }

  lemma RecordKeeps(d0: Dsu, s: State, t: nat)
    requires SnapInv(d0, s) && t < |s.ws| && s.ws[t].Seeking? && s.ws[t].f.Found?
    ensures s.ws[t].i < |s.lab| && SnapInv(d0, RecordMove(s, t))
  {
    assert WorkerOk(s, s.ws[t]);
    var r, i := RecordMove(s, t), s.ws[t].i;
    RecordCount(s, t);
    if s.d.IsRoot(i) {
      RootFindsItself(s.d, i, s.ws[t].f.r);
    }
    forall u: nat | u < |r.ws|
      ensures WorkerOk(r, r.ws[u])
    {
      assert WorkerOk(s, s.ws[u]);
    }
    forall k: nat | k < r.d.Size()
      ensures k in r.todo || k in r.got || Busy(r, k)
    {
      if k != i && Busy(s, k) {
        BusyElsewhere(s, r, t, k);
      }
    }
    forall k: nat | k < r.d.Size() && k in r.got
      ensures LabelOk(r.d, r.lab, k)
    {
      assert k != i ==> LabelOk(s.d, s.lab, k);
    }
    if |s.ws| == 1 || Low(d0) {
      RecordExact(LevelsOf(d0), s, t);
    }
  }

  lemma RecordExact(level: seq<nat>, s: State, t: nat)
    requires s.d.Valid() && |s.lab| == s.d.Size() && ExactSoFar(level, s)
    requires t < |s.ws| && s.ws[t].Seeking? && s.ws[t].f.Found? && s.ws[t].i < |s.lab|
    ensures ExactSoFar(level, RecordMove(s, t))
  {
    var r := RecordMove(s, t);
    assert WorkerExact(level, s, s.ws[t]);
    forall u: nat | u < |r.ws|
      ensures WorkerExact(level, r, r.ws[u])
    {
      assert WorkerExact(level, s, s.ws[u]);
    }
  }

  // The loop

  function Init(d: Dsu, threads: nat): State {
    State(d, seq(threads, _ => Free), Range(0, d.Size()), {}, seq(d.Size(), _ => 0), 0)
  }

  lemma InitInv(d: Dsu, threads: nat)
    requires d.Valid()
    ensures SnapInv(d, Init(d, threads))
  {
    assert OwnRoots(Init(d, threads).lab, {}) == {};
    LevelsOfOk(d);
  }

  /** The steps each worker still takes on its current search. */
  ghost function SeekMeasures(d0: Dsu, s: State): (m: seq<nat>)
    requires SnapInv(d0, s)
    ensures |m| == |s.ws|
  {
    seq(|s.ws|, t requires 0 <= t < |s.ws| =>
      assert WorkerOk(s, s.ws[t]);
      if s.ws[t].Seeking? then 1 + FindMeasure(s.d, s.ws[t].f) else 0)
  }

  lemma SeekDrops(d0: Dsu, s: State, t: nat, pick: nat)
    requires SnapInv(d0, s) && t < |s.ws| && s.ws[t].Seeking? && !s.ws[t].f.Found?
    requires InRange(s.d.Size(), s.ws[t].f) && SnapInv(d0, SeekMove(s, t, pick))
    ensures Total(SeekMeasures(d0, SeekMove(s, t, pick))) < Total(SeekMeasures(d0, s))
  {
    var r := SeekMove(s, t, pick);
    var a, b := SeekMeasures(d0, s), SeekMeasures(d0, r);
    assert WorkerOk(s, s.ws[t]) && WorkerOk(r, r.ws[t]);
    FindStepKeeps(s.d, s.ws[t].i, s.ws[t].f, pick);
    forall u: nat | u < |a| && u != t
      ensures b[u] == a[u]
    {
      assert WorkerOk(s, s.ws[u]);
      if s.ws[u].Seeking? {
        RankSame(s.d, r.d, At(s.ws[u].f));
      }
    }
    assert b == a[t := b[t]];
    TotalUpdate(a, t, b[t]);
  }

  lemma RecordDrops(d0: Dsu, s: State, t: nat)
    requires SnapInv(d0, s) && t < |s.ws| && s.ws[t].Seeking? && s.ws[t].f.Found? && s.ws[t].i < |s.lab|
    requires SnapInv(d0, RecordMove(s, t))
    ensures Total(SeekMeasures(d0, RecordMove(s, t))) < Total(SeekMeasures(d0, s))
  {
    var a, b := SeekMeasures(d0, s), SeekMeasures(d0, RecordMove(s, t));
    RecordMeasures(d0, s, t);
    TotalUpdate(a, t, 0);
  }

  lemma RecordMeasures(d0: Dsu, s: State, t: nat)
    requires SnapInv(d0, s) && t < |s.ws| && s.ws[t].Seeking? && s.ws[t].f.Found? && s.ws[t].i < |s.lab|
    requires SnapInv(d0, RecordMove(s, t))
    ensures SeekMeasures(d0, RecordMove(s, t)) == SeekMeasures(d0, s)[t := 0] && SeekMeasures(d0, s)[t] > 0
  {
    var a, b := SeekMeasures(d0, s), SeekMeasures(d0, RecordMove(s, t));
    forall u: nat | u < |a|
      ensures b[u] == if u == t then 0 else a[u]
    {
    }
  }

  /**
   * lab is a snapshot of d: every label lies in its vertex's set and every root labels
   * itself, so the count is never below the number of sets.
   */
  ghost predicate Snapped(d: Dsu, lab: seq<nat>, count: nat) {
    && d.Valid() && |lab| == d.Size()
    && (forall i: nat | i < d.Size() :: LabelOk(d, lab, i))
    && count == |OwnRoots(lab, Range(0, |lab|))|
  }

  /** A snapshot that shows exactly the sets of d. */
  ghost predicate Faithful(d: Dsu, lab: seq<nat>, count: nat) {
    && d.Valid() && |lab| == d.Size() && count == |d.Roots()|
    && (forall i: nat | i < d.Size() :: lab[i] == d.Root(i))
  }

  lemma SnapEnd(d: Dsu, s: State)
    requires SnapInv(d, s) && Complete(s)
    ensures Snapped(d, s.lab, s.count)
    ensures |s.ws| == 1 || Low(d) ==> Faithful(d, s.lab, s.count)
  {
    forall i: nat | i < d.Size()
      ensures i in s.got && LabelOk(d, s.lab, i)
    {
      assert i in s.todo || i in s.got || Busy(s, i);
      assert LabelOk(s.d, s.lab, i);
    }
    assert s.got == Range(0, |s.lab|);
    if |s.ws| == 1 || Low(d) {
      ExactEnd(d, s);
    }
  }

  lemma ExactEnd(d: Dsu, s: State)
    requires SnapInv(d, s) && ExactSoFar(LevelsOf(d), s) && s.got == Range(0, |s.lab|)
    ensures Faithful(d, s.lab, s.count)
  {
    forall i: nat | i < d.Size()
      ensures s.lab[i] == d.Root(i)
    {
      assert s.d.IsRoot(s.lab[i]) && LabelOk(s.d, s.lab, i);
    }
    assert OwnRoots(s.lab, s.got) == d.Roots();
  }

  // Runs

  /** Worker t may take s to r; pick resolves a racing load, i is the iteration it starts. */
  ghost predicate Moves(s: State, t: nat, pick: nat, i: nat, r: State) {
    && t < |s.ws| && s.d.Valid()
    && match s.ws[t]
       case Free => i in s.todo && r == StartMove(s, t, i)
       case Seeking(k, f) =>
         if f.Found? then k < |s.lab| && r == RecordMove(s, t)
         else InRange(s.d.Size(), f) && r == SeekMove(s, t, pick)
  }

  ghost predicate Next(s: State, r: State) {
    exists t: nat, pick: nat, i: nat :: Moves(s, t, pick, i, r)
  }

  ghost function Steps(): (State, State) -> bool {
    (s: State, r: State) => Next(s, r)
  }

  /** Some schedule and some division of the iterations lead from s to r. */
  ghost predicate Reaches(s: State, r: State) {
    Runs.Reaches(Steps(), s, r)
  }

  predicate Complete(s: State) {
    s.todo == {} && forall t: nat | t < |s.ws| :: s.ws[t].Free?
  }

  /** What the parallel loop may leave behind. */
  ghost predicate Result(d: Dsu, threads: nat, s: State) {
    Reaches(Init(d, threads), s) && Complete(s)
  }

  /** Some run of the loop over d leaves the union-find e and the snapshot lab, count. */
  ghost predicate Taken(d: Dsu, threads: nat, e: Dsu, lab: seq<nat>, count: nat) {
    exists s: State :: Result(d, threads, s) && s.d == e && s.lab == lab && s.count == count
  }

  /** The loop gets closer to its end, and labels once written stay. */
  ghost predicate Closer(d0: Dsu, s: State, r: State)
    requires SnapInv(d0, s) && SnapInv(d0, r)
  {
    && s.got <= r.got && (forall i | i in s.got && i < |s.lab| && i < |r.lab| :: r.lab[i] == s.lab[i]) && |r.ws| == |s.ws|
    && (|r.todo| < |s.todo| || (r.todo == s.todo && Total(SeekMeasures(d0, r)) < Total(SeekMeasures(d0, s))))
  }

  lemma MoveKeeps(d0: Dsu, s: State, t: nat, pick: nat, i: nat, r: State)
    requires SnapInv(d0, s) && Moves(s, t, pick, i, r)
    ensures SnapInv(d0, r) && Closer(d0, s, r)
  {
    match s.ws[t]
    case Free =>
      StartKeeps(d0, s, t, i);
    case Seeking(k, f) =>
      assert WorkerOk(s, s.ws[t]);
      if f.Found? {
        RecordKeeps(d0, s, t);
        RecordDrops(d0, s, t);
      } else {
        SeekKeeps(d0, s, t, pick);
        SeekDrops(d0, s, t, pick);
      }
  }

  lemma ReachesItself(s: State)
    ensures Reaches(s, s)
  {
    Runs.ReachesItself(Steps(), s);
  }

  lemma ReachesNext(s: State, r: State, t: nat, pick: nat, i: nat, q: State)
    requires Reaches(s, r) && Moves(r, t, pick, i, q)
    ensures Reaches(s, q)
  {
    assert Next(r, q);
    Runs.ReachesNext(Steps(), s, r, q);
  }

  ghost predicate SnapFrom(d0: Dsu, workers: nat, s: State) {
    SnapInv(d0, s) && |s.ws| == workers
  }

  lemma NextKeeps(d0: Dsu, workers: nat, s: State, r: State)
    requires SnapFrom(d0, workers, s) && Next(s, r)
    ensures SnapFrom(d0, workers, r)
  {
    var t: nat, pick: nat, i: nat :| Moves(s, t, pick, i, r);
    MoveKeeps(d0, s, t, pick, i, r);
  }

  lemma ReachKeeps(d0: Dsu, s: State, r: State)
    requires SnapInv(d0, s) && Reaches(s, r)
    ensures SnapInv(d0, r) && |r.ws| == |s.ws|
  {
    var inv := (x: State) => SnapFrom(d0, |s.ws|, x);
    forall a: State, b: State | inv(a) && Steps()(a, b)
      ensures inv(b)
    {
      NextKeeps(d0, |s.ws|, a, b);
    }
    Runs.ReachKeeps(Steps(), inv, s, r);
  }

  // How wrong a label can be

  /** Every label is a root or at least two links above its vertex. */
  ghost predicate FarLabels(d: Dsu, lab: seq<nat>) {
    d.Valid() && |lab| == d.Size() && forall i: nat | i < d.Size() :: Far(d, i, lab[i])
  }

  ghost predicate FarWorker(d0: Dsu, d: Dsu, w: Worker)
    requires d0.Valid() && d.Size() == d0.Size()
  {
    w.Seeking? ==> w.i < d0.Size() && FarFind(d0, d, w.i, w.f)
  }

  ghost predicate FarSoFar(d0: Dsu, s: State) {
    && AllLoaded(d0, s.d) && |s.lab| == d0.Size()
    && (forall t: nat | t < |s.ws| :: FarWorker(d0, s.d, s.ws[t]))
    && (forall i: nat | i < d0.Size() && i in s.got :: Far(d0, i, s.lab[i]))
  }

  lemma FarSeek(d0: Dsu, s: State, t: nat, pick: nat)
    requires FarSoFar(d0, s) && t < |s.ws| && s.ws[t].Seeking? && !s.ws[t].f.Found? && WorkerOk(s, s.ws[t])
    ensures InRange(s.d.Size(), s.ws[t].f) && FarSoFar(d0, SeekMove(s, t, pick))
  {
    var r := SeekMove(s, t, pick);
    assert FarWorker(d0, s.d, s.ws[t]);
    FarStep(d0, s.d, s.ws[t].i, s.ws[t].f, pick);
    forall u: nat | u < |r.ws|
      ensures FarWorker(d0, r.d, r.ws[u])
    {
      assert FarWorker(d0, s.d, s.ws[u]);
      if u != t && s.ws[u].Seeking? {
        FarStable(d0, s.d, r.d, s.ws[u].i, s.ws[u].f);
      }
    }
  }

  lemma FarMove(d0: Dsu, s: State, r: State)
    requires SnapInv(d0, s) && FarSoFar(d0, s) && Next(s, r)
    ensures FarSoFar(d0, r)
  {
    var t: nat, pick: nat, i: nat :| Moves(s, t, pick, i, r);
    assert WorkerOk(s, s.ws[t]) && FarWorker(d0, s.d, s.ws[t]);
    match s.ws[t]
    case Free => FarOthers(d0, s, r, t);
    case Seeking(_, f) =>
      if f.Found? {
        FarOthers(d0, s, r, t);
      } else {
        FarSeek(d0, s, t, pick);
      }
  }

  /** A step that leaves the forest alone. */
  lemma FarOthers(d0: Dsu, s: State, r: State, t: nat)
    requires FarSoFar(d0, s) && r.d == s.d && |r.lab| == d0.Size() && t < |s.ws| == |r.ws| && r.ws == s.ws[t := r.ws[t]]
    requires FarWorker(d0, r.d, r.ws[t])
    requires forall i: nat | i < d0.Size() && i in r.got :: Far(d0, i, r.lab[i])
    ensures FarSoFar(d0, r)
  {
  }

  lemma ResultFar(d: Dsu, threads: nat, s: State)
    requires d.Valid() && Result(d, threads, s)
    ensures FarLabels(d, s.lab)
  {
    InitInv(d, threads);
    var inv := (x: State) => SnapFrom(d, threads, x) && FarSoFar(d, x);
    forall a: State, b: State | inv(a) && Steps()(a, b)
      ensures inv(b)
    {
      NextKeeps(d, threads, a, b);
      FarMove(d, a, b);
    }
    Runs.ReachKeeps(Steps(), inv, Init(d, threads), s);
    forall i: nat | i < d.Size()
      ensures i in s.got
    {
      assert i in s.todo || i in s.got || Busy(s, i);
    }
  }

  /** A worker that is busy, or has something left to do, can move. */
  lemma CanMove(d0: Dsu, s: State, t: nat, pick: nat, i: nat) returns (r: State)
    requires SnapInv(d0, s) && t < |s.ws| && (s.ws[t].Seeking? || i in s.todo)
    ensures Moves(s, t, pick, i, r)
  {
    assert WorkerOk(s, s.ws[t]);
    match s.ws[t]
    case Free => r := StartMove(s, t, i);
    case Seeking(_, f) => r := if f.Found? then RecordMove(s, t) else SeekMove(s, t, pick);
  }

  /**
   * The constructor of ConnectedComponents under any schedule. The snapshot is faithful
   * with one thread or in a low forest; in any other every label that is no root is at least
   * two links above its vertex.
   */
  method ConnectedComponents(d: Dsu, threads: nat) returns (e: Dsu, lab: seq<nat>, count: nat)
    requires d.Valid() && threads > 0
    ensures SameRoots(d, e) && Snapped(d, lab, count)
    ensures threads == 1 || Low(d) ==> Faithful(d, lab, count)
    ensures Taken(d, threads, e, lab, count) && FarLabels(d, lab)
  {
    var s := Init(d, threads);
    InitInv(d, threads);
    ReachesItself(s);
    while s.todo != {} || exists t: nat :: t < |s.ws| && s.ws[t].Seeking?
      invariant SnapInv(d, s) && |s.ws| == threads && Reaches(Init(d, threads), s)
      decreases |s.todo|, Total(SeekMeasures(d, s))
    {
      var t: nat :| t < |s.ws| && (s.todo != {} || s.ws[t].Seeking?);
      s := OneMove(d, s, t, threads);
    }
    SnapEnd(d, s);
    ResultFar(d, threads, s);
    return s.d, s.lab, s.count;
  }

  /** One atomic step of worker t, or the start of some iteration that is left. */
  method OneMove(ghost d: Dsu, s: State, t: nat, ghost threads: nat) returns (r: State)
    requires SnapInv(d, s) && t < |s.ws| && (s.todo != {} || s.ws[t].Seeking?) && Reaches(Init(d, threads), s)
    ensures SnapInv(d, r) && Closer(d, s, r) && Reaches(Init(d, threads), r)
  {
    var pick: nat := *;
    ghost var i: nat := 0;
    assert WorkerOk(s, s.ws[t]);
    if s.ws[t].Free? {
      var k :| k in s.todo;
      i := k;
      r := StartMove(s, t, k);
    } else {
      r := if s.ws[t].f.Found? then RecordMove(s, t) else SeekMove(s, t, pick);
    }
    assert Moves(s, t, pick, i, r);
    MoveKeeps(d, s, t, pick, i, r);
    ReachesNext(Init(d, threads), s, t, pick, i, r);
  }

  /** Every run can be finished. */
  lemma Finishes(d0: Dsu, s0: State, s: State) returns (r: State)
    requires SnapInv(d0, s) && Reaches(s0, s) && |s.ws| > 0
    ensures SnapInv(d0, r) && Reaches(s0, r) && Complete(r) && s.got <= r.got
    ensures forall i | i in s.got && i < |s.lab| && i < |r.lab| :: r.lab[i] == s.lab[i]
  {
    r := s;
    while !Complete(r)
      invariant SnapInv(d0, r) && Reaches(s0, r) && |r.ws| > 0 && s.got <= r.got
      invariant forall i | i in s.got && i < |s.lab| && i < |r.lab| :: r.lab[i] == s.lab[i]
      decreases |r.todo|, Total(SeekMeasures(d0, r))
    {
      var t: nat :| t < |r.ws| && (r.todo != {} || r.ws[t].Seeking?);
      var i: nat := 0;
      if r.todo != {} {
        var k :| k in r.todo;
        i := k;
      }
      var q := CanMove(d0, r, t, 0, i);
      MoveKeeps(d0, r, t, 0, i, q);
      ReachesNext(s0, r, t, 0, i, q);
      r := q;
    }
  }

  // Some run is exact

  /** Only worker 0 has ever moved, and it has found nothing but roots. */
  ghost predicate Solo(d0: Dsu, s: State) {
    SnapInv(d0, s) && OnlyRoots(s)
  }

  ghost predicate OnlyRoots(s: State)
    requires s.d.Valid()
  {
    && |s.ws| > 0 && (forall t: nat | 0 < t < |s.ws| :: s.ws[t].Free?)
    && (s.ws[0].Seeking? ==> InRange(s.d.Size(), s.ws[0].f) && Current(s.d, s.ws[0].f))
    && (forall i: nat | i in s.got && i < |s.lab| :: s.lab[i] < s.d.Size() && s.d.IsRoot(s.lab[i]))
  }

  lemma RootsMove(s: State, i: nat, r: State)
    requires s.d.Valid() && OnlyRoots(s) && WorkerOk(s, s.ws[0]) && Moves(s, 0, 0, i, r)
    requires i < s.d.Size() && r.d.Valid()
    ensures OnlyRoots(r)
  {
    if s.ws[0].Seeking? && !s.ws[0].f.Found? {
      CurrentStep(s.d, s.ws[0].i, s.ws[0].f, 0);
      FindStepKeeps(s.d, s.ws[0].i, s.ws[0].f, 0);
    }
  }

  lemma SoloStep(d0: Dsu, s: State, i: nat) returns (r: State)
    requires Solo(d0, s) && (s.ws[0].Seeking? || i in s.todo)
    ensures Solo(d0, r) && Moves(s, 0, 0, i, r) && Closer(d0, s, r)
  {
    var k := if i in s.todo then i else s.ws[0].i;
    assert WorkerOk(s, s.ws[0]);
    r := CanMove(d0, s, 0, 0, i);
    MoveKeeps(d0, s, 0, 0, i, r);
    RootsMove(s, k, r);
  }

  /** Whatever the forest and the number of threads, some schedule leaves an exact snapshot. */
  lemma SomeFaithful(d: Dsu, threads: nat) returns (s: State)
    requires d.Valid() && threads > 0
    ensures Result(d, threads, s) && Faithful(d, s.lab, s.count)
  {
    InitInv(d, threads);
    s := Init(d, threads);
    ReachesItself(s);
    while !Complete(s)
      invariant Solo(d, s) && |s.ws| == threads && Reaches(Init(d, threads), s)
      decreases |s.todo|, Total(SeekMeasures(d, s))
    {
      var i: nat := 0;
      if s.todo != {} {
        var k :| k in s.todo;
        i := k;
      }
      var r := SoloStep(d, s, i);
      ReachesNext(Init(d, threads), s, 0, 0, i, r);
      s := r;
    }
    SoloEnd(d, s);
  }

  lemma SoloEnd(d: Dsu, s: State)
    requires Solo(d, s) && Complete(s)
    ensures Faithful(d, s.lab, s.count)
  {
    SnapEnd(d, s);
    forall i: nat | i < d.Size()
      ensures s.lab[i] == d.Root(i)
    {
      assert i in s.todo || i in s.got || Busy(s, i);
      assert s.d.IsRoot(s.lab[i]) && LabelOk(d, s.lab, i);
    }
    assert OwnRoots(s.lab, Range(0, |s.lab|)) == d.Roots();
  }

  /** Labels never outnumber what they should: a snapshot counts at least every set, and exactly when faithful. */
  lemma CountsEverySet(d: Dsu, lab: seq<nat>, count: nat)
    requires Snapped(d, lab, count)
    ensures |d.Roots()| <= count
    ensures count == |d.Roots()| <==> forall i: nat | i < |lab| && lab[i] == i :: d.IsRoot(i)
  {
    var own := OwnRoots(lab, Range(0, |lab|));
    forall r | r in d.Roots()
      ensures r in own
    {
      assert LabelOk(d, lab, r);
    }
    SubsetCard(d.Roots(), own);
    if count == |d.Roots()| {
      FullSubset(d.Roots(), own);
      forall i: nat | i < |lab| && lab[i] == i
        ensures d.IsRoot(i)
      {
        assert i in own;
      }
    }
    if forall i: nat | i < |lab| && lab[i] == i :: d.IsRoot(i) {
      assert own == d.Roots();
    }
  }

  // Component sets

  /** The vertices with a given label among the first k. */
  ghost function Labelled(lab: seq<nat>, k: nat, l: nat): set<nat> {
    set i | i in Range(0, k) && i < |lab| && lab[i] == l
  }

  /** sets lists the vertices of each label that occurs, in increasing order of label. */
  ghost predicate Keyed(lab: seq<nat>, keys: seq<nat>, sets: seq<set<nat>>, bound: nat) {
    && |keys| == |sets|
    && (forall k: nat | k < |keys| :: keys[k] < bound && sets[k] == Labelled(lab, |lab|, keys[k]) && sets[k] != {})
    && (forall k: nat, m: nat | k < m < |keys| :: keys[k] < keys[m])
    && (forall i: nat | i < |lab| && lab[i] < bound :: lab[i] in keys)
  }

  /** Some set holds i. */
  ghost predicate Listed(sets: seq<set<nat>>, i: nat) {
    exists k: nat :: k < |sets| && i in sets[k]
  }

  lemma KeyedNext(lab: seq<nat>, keys: seq<nat>, sets: seq<set<nat>>, l: nat)
    requires Keyed(lab, keys, sets, l)
    ensures Labelled(lab, |lab|, l) != {} ==> Keyed(lab, keys + [l], sets + [Labelled(lab, |lab|, l)], l + 1)
    ensures Labelled(lab, |lab|, l) == {} ==> Keyed(lab, keys, sets, l + 1)
  {
    var c := Labelled(lab, |lab|, l);
    assert (keys + [l])[|keys|] == l;
    forall i: nat | i < |lab| && lab[i] < l + 1
      ensures lab[i] in keys || (lab[i] == l && c != {})
    {
      if lab[i] == l {
        assert i in c;
      }
    }
  }

  /** temp[parent_arr[i]].insert(i) for every vertex, then the sets in order of their key. */
  method GetComponentSets(lab: seq<nat>) returns (sets: seq<set<nat>>, ghost keys: seq<nat>)
    requires forall i: nat | i < |lab| :: lab[i] < |lab|
    ensures Keyed(lab, keys, sets, |lab|)
    ensures forall i: nat | i < |lab| :: Listed(sets, i)
    ensures forall k: nat, i: nat, j: nat | k < |sets| && i in sets[k] && j < |lab| ::
              i < |lab| && (j in sets[k] <==> lab[j] == lab[i])
  {
    var temp: map<nat, set<nat>> := map[];
    for i := 0 to |lab|
      invariant forall l: nat :: l in temp <==> Labelled(lab, i, l) != {}
      invariant forall l: nat | l in temp :: temp[l] == Labelled(lab, i, l)
    {
      forall l: nat
        ensures Labelled(lab, i + 1, l) == Labelled(lab, i, l) + if lab[i] == l then {i} else {}
      {
        LabelledGrows(lab, i, l);
      }
      temp := Put(temp, lab[i], (if lab[i] in temp then temp[lab[i]] else {}) + {i});
    }
    sets, keys := [], [];
    for l := 0 to |lab|
      invariant Keyed(lab, keys, sets, l)
    {
      KeyedNext(lab, keys, sets, l);
      if l in temp {
        sets, keys := sets + [temp[l]], keys + [l];
      }
    }
    KeyedLists(lab, keys, sets);
  }

  lemma KeyedLists(lab: seq<nat>, keys: seq<nat>, sets: seq<set<nat>>)
    requires Keyed(lab, keys, sets, |lab|) && forall i: nat | i < |lab| :: lab[i] < |lab|
    ensures forall i: nat | i < |lab| :: Listed(sets, i)
    ensures forall k: nat, i: nat, j: nat | k < |sets| && i in sets[k] && j < |lab| ::
              i < |lab| && (j in sets[k] <==> lab[j] == lab[i])
  {
    forall i: nat | i < |lab|
      ensures Listed(sets, i)
    {
      var k: nat :| k < |keys| && keys[k] == lab[i];
      assert i in sets[k];
    }
  }

  lemma {:induction false} SameCount(roots: set<nat>, keys: seq<nat>)
    requires forall k: nat, m: nat | k < m < |keys| :: keys[k] < keys[m]
    requires (forall r | r in roots :: r in keys) && forall k: nat | k < |keys| :: keys[k] in roots
    ensures |keys| == |roots|
  {
    if keys != [] {
      var m := |keys| - 1;
      SameCount(roots - {keys[m]}, keys[..m]);
      assert |roots - {keys[m]}| == |roots| - 1;
    }
  }

  lemma KeysAreRoots(d: Dsu, lab: seq<nat>, count: nat, keys: seq<nat>, sets: seq<set<nat>>)
    requires Faithful(d, lab, count) && Keyed(lab, keys, sets, |lab|)
    ensures |keys| == count
  {
    forall r | r in d.Roots()
      ensures r in keys
    {
      assert lab[r] == r;
    }
    forall k: nat | k < |keys|
      ensures keys[k] in d.Roots()
    {
      var i :| i in sets[k];
      assert lab[i] == keys[k];
    }
    SameCount(d.Roots(), keys);
  }

  /** The component sets of a faithful snapshot are the sets of the union-find, each listed once. */
  lemma SetsAreComponents(d: Dsu, lab: seq<nat>, count: nat, keys: seq<nat>, sets: seq<set<nat>>)
    requires Faithful(d, lab, count) && Keyed(lab, keys, sets, |lab|)
    ensures |sets| == count
    ensures forall k: nat, i: nat, j: nat | k < |sets| && i in sets[k] && j < d.Size() ::
              i < d.Size() && (j in sets[k] <==> d.SameSet(i, j))
  {
    KeysAreRoots(d, lab, count, keys, sets);
  }

  function Put(m: map<nat, set<nat>>, k: nat, v: set<nat>): (r: map<nat, set<nat>>)
    ensures forall l :: l in r <==> l in m || l == k
    ensures forall l | l in r :: r[l] == if l == k then v else m[l]
  {
    m[k := v]
  }

  lemma LabelledGrows(lab: seq<nat>, i: nat, l: nat)
    requires i < |lab|
    ensures Labelled(lab, i + 1, l) == Labelled(lab, i, l) + if lab[i] == l then {i} else {}
  {
  }

  // The spanning forest

  /** The edges of f whose smaller endpoint is below src. */
  ghost function EdgesBelow(f: Graph, src: nat): Graph {
    set e | e in f && e.src < src
  }

  method AppendEdges(edges: seq<Edge>, row: Graph) returns (r: seq<Edge>)
    ensures multiset(r) == multiset(edges) + multiset(row)
    ensures edges <= r && forall i: nat | |edges| <= i < |r| :: r[i] in row
  {
    r := edges;
    var rest := row;
    while rest != {}
      invariant multiset(r) + multiset(rest) == multiset(edges) + multiset(row) && rest <= row
      invariant edges <= r && forall i: nat | |edges| <= i < |r| :: r[i] in row
      decreases |rest|
    {
      var e :| e in rest;
      r := r + [e];
      assert multiset(rest) == multiset(rest - {e}) + multiset{e};
      rest := rest - {e};
    }
  }

  lemma RowAdded(f: Graph, src: nat)
    ensures multiset(EdgesBelow(f, src + 1)) == multiset(EdgesBelow(f, src)) + multiset(set e | e in f && e.src == src)
  {
    var a, b, c := EdgesBelow(f, src + 1), EdgesBelow(f, src), set e | e in f && e.src == src;
    assert a == b + c && b !! c;
  }

  /** The constructor of SpanningForest: every edge once, in order of its smaller endpoint. */
  method ListEdges(f: Graph, n: nat) returns (edges: seq<Edge>)
    requires Simple(f, n)
    ensures multiset(edges) == multiset(f)
    ensures forall i: nat, j: nat | i < j < |edges| :: edges[i].src <= edges[j].src
  {
    edges := [];
    for src := 0 to n
      invariant multiset(edges) == multiset(EdgesBelow(f, src))
      invariant forall i: nat | i < |edges| :: edges[i].src < src
      invariant forall i: nat, j: nat | i < j < |edges| :: edges[i].src <= edges[j].src
    {
      RowAdded(f, src);
      edges := AppendEdges(edges, set e | e in f && e.src == src);
    }
    assert EdgesBelow(f, n) == f;
  }
}
