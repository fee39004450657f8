// Whole runs of the labelling phase of create_merge_instructions
// (src/cc_sketch_alg.cpp, lines 386-419): every schedule ends, and when its labels are roots.

module GatherRuns {
  import opened Counting
  import opened DsuSpec
  import opened DsuConcurrent
  import opened DsuFindRace
  import opened DsuFar
  import opened Jobs
  import opened Gather
  import Runs

  // Progress of the labelling phase

  ghost function Unlabelled(j: Job, s: State): set<nat>
    requires Shape(j, s)
  {
    set k | k in Range(0, j.N()) && !Labelled(j, s, k)
  }

  ghost function FindLeft(j: Job, s: State): seq<nat>
    requires Workers(j, s)
  {
    seq(j.Threads(), t requires 0 <= t < j.Threads() =>
      assert WorkerInv(j, s, t); if s.ws[t].Looking? then FindMeasure(s.d, s.ws[t].f) else 0)
  }

  ghost function CaptureLeft(s: State): seq<nat> {
    seq(|s.ws|, t requires 0 <= t < |s.ws| => if s.ws[t].Capturing? then |s.ws[t].todo| else 0)
  }

  lemma FindProgress(j: Job, s: State, t: nat, pick: nat)
    requires Workers(j, s) && t < j.Threads() && s.ws[t].Looking? && !s.ws[t].f.Found?
    requires InRange(s.d.Size(), s.ws[t].f) && Workers(j, FindMove(s, t, pick))
    ensures Unlabelled(j, FindMove(s, t, pick)) == Unlabelled(j, s)
    ensures Total(FindLeft(j, FindMove(s, t, pick))) < Total(FindLeft(j, s))
  {
    var r := FindMove(s, t, pick);
    assert WorkerInv(j, s, t) && WorkerInv(j, r, t);
    FindStepKeeps(s.d, j.child[s.ws[t].pos], s.ws[t].f, pick);
    OthersFindLeft(j, s, r, t);
  }

  lemma OthersFindLeft(j: Job, s: State, r: State, t: nat)
    requires Workers(j, s) && Workers(j, r) && t < j.Threads() && r.d.prio == s.d.prio
    requires forall i: nat | i < j.Threads() && i != t :: r.ws[i] == s.ws[i]
    requires FindLeft(j, r)[t] < FindLeft(j, s)[t]
    ensures Total(FindLeft(j, r)) < Total(FindLeft(j, s))
  {
    var a, b := FindLeft(j, s), FindLeft(j, r);
    forall i: nat | i < j.Threads() && i != t
      ensures b[i] == a[i]
    {
      OtherFindLeft(j, s, r, i);
    }
    assert b == a[t := b[t]];
    TotalUpdate(a, t, b[t]);
  }

  lemma OtherFindLeft(j: Job, s: State, r: State, i: nat)
    requires Workers(j, s) && Workers(j, r) && i < j.Threads() && r.ws[i] == s.ws[i] && r.d.prio == s.d.prio
    ensures FindLeft(j, r)[i] == FindLeft(j, s)[i]
  {
    assert WorkerInv(j, s, i) && WorkerInv(j, r, i);
    if s.ws[i].Looking? {
      RankSame(s.d, r.d, At(s.ws[i].f));
    }
  }

  lemma LabelProgress(j: Job, s: State, t: nat)
    requires Workers(j, s) && t < j.Threads() && s.ws[t].Looking? && s.ws[t].f.Found? && s.ws[t].pos < j.N()
    requires Workers(j, LabelMove(j, s, t))
    ensures |Unlabelled(j, LabelMove(j, s, t))| < |Unlabelled(j, s)|
  {
    assert WorkerInv(j, s, t);
    var pos := s.ws[t].pos;
    var a, b := Unlabelled(j, s), Unlabelled(j, LabelMove(j, s, t));
    assert j.owner[pos] == t;
    assert pos in a && pos !in b;
    forall k | k in b
      ensures k in a
    {
    }
    OneFewer(b, a, pos);
  }

  lemma CaptureProgress(j: Job, s: State, t: nat, l: nat)
    requires Workers(j, s) && t < j.Threads() && s.ws[t].Capturing? && l in s.ws[t].todo && l < j.N()
    requires Workers(j, CaptureMove(j, s, t, l))
    ensures Unlabelled(j, CaptureMove(j, s, t, l)) == Unlabelled(j, s)
    ensures FindLeft(j, CaptureMove(j, s, t, l)) == FindLeft(j, s)
    ensures Total(CaptureLeft(CaptureMove(j, s, t, l))) < Total(CaptureLeft(s))
  {
    var r := CaptureMove(j, s, t, l);
    var a, b := CaptureLeft(s), CaptureLeft(r);
    assert b == a[t := b[t]];
    assert |s.ws[t].todo - {l}| == |s.ws[t].todo| - 1;
    TotalUpdate(a, t, b[t]);
  }

  /** The labelling work left shrinks with every move. */
  ghost predicate Progress(j: Job, s: State, r: State)
    requires Workers(j, s) && Workers(j, r)
  {
    || |Unlabelled(j, r)| < |Unlabelled(j, s)|
    || (Unlabelled(j, r) == Unlabelled(j, s) &&
        (Total(FindLeft(j, r)) < Total(FindLeft(j, s)) ||
         (FindLeft(j, r) == FindLeft(j, s) && Total(CaptureLeft(r)) < Total(CaptureLeft(s)))))
  }

  // Runs

  /** Thread t may take s to r; pick resolves a racing load, l is the label it captures. */
  ghost predicate Moves(j: Job, s: State, t: nat, pick: nat, l: nat, r: State) {
    && Workers(j, s) && t < j.Threads()
    && match s.ws[t]
       case Looking(pos, f) =>
         if f.Found? then pos < j.N() && r == LabelMove(j, s, t)
         else InRange(s.d.Size(), f) && r == FindMove(s, t, pick)
       case Capturing(todo) => l in todo && l < j.N() && r == CaptureMove(j, s, t, l)
  }

  ghost predicate Next(j: Job, s: State, r: State) {
    exists t: nat, pick: nat, l: nat :: Moves(j, s, t, pick, l, r)
  }

  /** Labels once recorded stay. */
  ghost predicate Keeps(j: Job, s: State, r: State)
    requires Shape(j, s) && Shape(j, r)
  {
    forall k: nat | k < j.N() && Labelled(j, s, k) :: Labelled(j, r, k) && r.lab[k] == s.lab[k]
  }

  lemma MoveKeeps(j: Job, d: Dsu, s: State, t: nat, pick: nat, l: nat, r: State)
    requires GatherInv(j, d, s) && Moves(j, s, t, pick, l, r)
    ensures GatherInv(j, d, r) && Progress(j, s, r) && Keeps(j, s, r)
  {
    match s.ws[t]
    case Looking(pos, f) =>
      if f.Found? {
        GatherLabel(j, d, s, t);
        LabelProgress(j, s, t);
        LabelKeeps(j, s, t);
      } else {
        GatherFind(j, d, s, t, pick);
        FindProgress(j, s, t, pick);
      }
    case Capturing(todo) =>
      GatherCapture(j, d, s, t, l);
      CaptureProgress(j, s, t, l);
  }

  lemma LabelKeeps(j: Job, s: State, t: nat)
    requires Workers(j, s) && t < j.Threads() && s.ws[t].Looking? && s.ws[t].f.Found? && s.ws[t].pos < j.N()
    requires Workers(j, LabelMove(j, s, t))
    ensures Keeps(j, s, LabelMove(j, s, t))
  {
    assert WorkerInv(j, s, t);
    assert j.owner[s.ws[t].pos] == t;
  }

  /** A busy thread can always move. */
  lemma CanMove(j: Job, d: Dsu, s: State, t: nat, pick: nat) returns (l: nat, r: State)
    requires GatherInv(j, d, s) && t < |s.ws| && !Idle(s.ws[t])
    ensures Moves(j, s, t, pick, l, r)
  {
    assert WorkerInv(j, s, t);
    l := 0;
    match s.ws[t]
    case Looking(pos, f) =>
      if f.Found? {
        GatherLabel(j, d, s, t);
        r := LabelMove(j, s, t);
      } else {
        r := FindMove(s, t, pick);
      }
    case Capturing(todo) =>
      l :| l in todo;
      GatherCapture(j, d, s, t, l);
      r := CaptureMove(j, s, t, l);
  }

  ghost function Steps(j: Job): (State, State) -> bool {
    (s: State, r: State) => Next(j, s, r)
  }

  /** Some schedule leads from s to r. */
  ghost predicate Reaches(j: Job, s: State, r: State) {
    Runs.Reaches(Steps(j), s, r)
  }

  lemma ReachesItself(j: Job, s: State)
    ensures Reaches(j, s, s)
  {
    Runs.ReachesItself(Steps(j), s);
  }

  lemma ReachesNext(j: Job, s: State, r: State, t: nat, pick: nat, l: nat, q: State)
    requires Reaches(j, s, r) && Moves(j, r, t, pick, l, q)
    ensures Reaches(j, s, q)
  {
    assert Next(j, r, q);
    Runs.ReachesNext(Steps(j), s, r, q);
  }

  /** What a run from s keeps. */
  ghost predicate GatherFrom(j: Job, d: Dsu, s: State, r: State) {
    Shape(j, s) && GatherInv(j, d, r) && Keeps(j, s, r)
  }

  lemma NextKeeps(j: Job, d: Dsu, s: State, a: State, b: State)
    requires GatherFrom(j, d, s, a) && Next(j, a, b)
    ensures GatherFrom(j, d, s, b)
  {
    var t: nat, pick: nat, l: nat :| Moves(j, a, t, pick, l, b);
    MoveKeeps(j, d, a, t, pick, l, b);
  }

  lemma ReachKeeps(j: Job, d: Dsu, s: State, r: State)
    requires GatherInv(j, d, s) && Reaches(j, s, r)
    ensures GatherInv(j, d, r) && Keeps(j, s, r)
  {
    var inv := (x: State) => GatherFrom(j, d, s, x);
    forall a: State, b: State | inv(a) && Steps(j)(a, b)
      ensures inv(b)
    {
      NextKeeps(j, d, s, a, b);
    }
    Runs.ReachKeeps(Steps(j), inv, s, r);
  }

  predicate AllIdle(s: State) {
    forall t: nat | t < |s.ws| :: Idle(s.ws[t])
  }

  /** What the labelling phase may leave behind, under one schedule or another. */
  ghost predicate Result(j: Job, d: Dsu, s: State) {
    j.Valid() && Reaches(j, InitState(j, d), s) && AllIdle(s)
  }

  lemma ResultInv(j: Job, d: Dsu, s: State)
    requires Result(j, d, s) && d.Valid() && d.Size() == j.N()
    ensures GatherInv(j, d, s) && AllIdle(s) && |s.lab| == j.N()
  {
    GatherStart(j, d);
    ReachKeeps(j, d, InitState(j, d), s);
  }

  // How wrong a label can be

  ghost predicate FarWorker(j: Job, d0: Dsu, d: Dsu, w: Worker)
    requires d0.Valid() && d.Size() == d0.Size()
  {
    w.Looking? ==> w.pos < j.N() && j.child[w.pos] < d0.Size() && FarFind(d0, d, j.child[w.pos], w.f)
  }

  ghost predicate FarSoFar(j: Job, d0: Dsu, s: State) {
    && Workers(j, s) && AllLoaded(d0, s.d)
    && (forall t: nat | t < j.Threads() :: FarWorker(j, d0, s.d, s.ws[t]))
    && (forall k: nat | k < j.N() && Labelled(j, s, k) :: j.child[k] < d0.Size() && Far(d0, j.child[k], s.lab[k]))
  }

  lemma FarLooks(j: Job, d0: Dsu, s: State, t: nat, pick: nat)
    requires FarSoFar(j, d0, s) && t < j.Threads() && s.ws[t].Looking? && !s.ws[t].f.Found?
    requires InRange(s.d.Size(), s.ws[t].f) && Workers(j, FindMove(s, t, pick))
    ensures FarSoFar(j, d0, FindMove(s, t, pick))
  {
    var r := FindMove(s, t, pick);
    assert WorkerInv(j, s, t) && FarWorker(j, d0, s.d, s.ws[t]);
    FarStep(d0, s.d, j.child[s.ws[t].pos], s.ws[t].f, pick);
    forall u: nat | u < j.Threads()
      ensures FarWorker(j, d0, r.d, r.ws[u])
    {
      assert FarWorker(j, d0, s.d, s.ws[u]);
      if u != t && s.ws[u].Looking? {
        FarStable(d0, s.d, r.d, j.child[s.ws[u].pos], s.ws[u].f);
      }
    }
    forall k: nat | k < j.N() && Labelled(j, r, k)
      ensures j.child[k] < d0.Size() && Far(d0, j.child[k], r.lab[k])
    {
      assert Labelled(j, s, k);
    }
  }

  lemma FarLabelled(j: Job, d0: Dsu, s: State, t: nat)
    requires FarSoFar(j, d0, s) && t < j.Threads() && s.ws[t].Looking? && s.ws[t].f.Found? && s.ws[t].pos < j.N()
    requires Workers(j, LabelMove(j, s, t))
    ensures FarSoFar(j, d0, LabelMove(j, s, t))
  {
    var r := LabelMove(j, s, t);
    assert WorkerInv(j, s, t) && WorkerInv(j, r, t) && FarWorker(j, d0, s.d, s.ws[t]);
    forall u: nat | u < j.Threads()
      ensures FarWorker(j, d0, r.d, r.ws[u])
    {
      assert FarWorker(j, d0, s.d, s.ws[u]);
    }
    forall k: nat | k < j.N() && Labelled(j, r, k)
      ensures j.child[k] < d0.Size() && Far(d0, j.child[k], r.lab[k])
    {
      LabelledBefore(j, s, t, k);
    }
  }

  /** The label just recorded is the only new one. */
  lemma LabelledBefore(j: Job, s: State, t: nat, k: nat)
    requires Workers(j, s) && t < j.Threads() && s.ws[t].Looking? && s.ws[t].f.Found? && s.ws[t].pos < j.N() && k < j.N()
    requires Labelled(j, LabelMove(j, s, t), k)
    ensures k == s.ws[t].pos || (Labelled(j, s, k) && LabelMove(j, s, t).lab[k] == s.lab[k])
  {
    assert WorkerInv(j, s, t);
  }

  lemma FarCaptured(j: Job, d0: Dsu, s: State, t: nat, l: nat)
    requires FarSoFar(j, d0, s) && t < j.Threads() && s.ws[t].Capturing? && l in s.ws[t].todo && l < j.N()
    requires Workers(j, CaptureMove(j, s, t, l))
    ensures FarSoFar(j, d0, CaptureMove(j, s, t, l))
  {
    var r := CaptureMove(j, s, t, l);
    forall k: nat | k < j.N() && Labelled(j, r, k)
      ensures j.child[k] < d0.Size() && Far(d0, j.child[k], r.lab[k])
    {
      assert Labelled(j, s, k);
    }
  }

  lemma FarMove(j: Job, d0: Dsu, s: State, t: nat, pick: nat, l: nat, r: State)
    requires FarSoFar(j, d0, s) && Moves(j, s, t, pick, l, r) && Workers(j, r)
    ensures FarSoFar(j, d0, r)
  {
    match s.ws[t]
    case Looking(_, f) =>
      if f.Found? {
        FarLabelled(j, d0, s, t);
      } else {
        FarLooks(j, d0, s, t, pick);
      }
    case Capturing(_) => FarCaptured(j, d0, s, t, l);
  }

  lemma FarBegins(j: Job, d: Dsu)
    requires j.Valid() && d.Valid() && d.Size() == j.N() && Workers(j, InitState(j, d))
    ensures FarSoFar(j, d, InitState(j, d))
  {
    var s := InitState(j, d);
    forall t: nat | t < j.Threads()
      ensures FarWorker(j, d, s.d, s.ws[t])
    {
      assert WorkerInv(j, s, t);
      FarStart(d, j.child[j.lo[t]]);
    }
  }

  ghost predicate FarFrom(j: Job, d: Dsu, s: State, r: State) {
    GatherFrom(j, d, s, r) && FarSoFar(j, d, r)
  }

  lemma FarNext(j: Job, d: Dsu, s0: State, a: State, b: State)
    requires FarFrom(j, d, s0, a) && Next(j, a, b)
    ensures FarFrom(j, d, s0, b)
  {
    NextKeeps(j, d, s0, a, b);
    var t: nat, pick: nat, l: nat :| Moves(j, a, t, pick, l, b);
    FarMove(j, d, a, t, pick, l, b);
  }

  /** However the labelling runs, every label is a root or at least two links above its vertex. */
  lemma ResultFar(j: Job, d: Dsu, s: State, k: nat)
    requires Result(j, d, s) && d.Valid() && d.Size() == j.N() == |s.lab| && k < j.N()
    ensures j.child[k] < d.Size() && Far(d, j.child[k], s.lab[k])
  {
    FarResult(j, d, s);
    FarIdle(j, d, s, k);
  }

  lemma FarResult(j: Job, d: Dsu, s: State)
    requires Result(j, d, s) && d.Valid() && d.Size() == j.N()
    ensures FarSoFar(j, d, s)
  {
    GatherStart(j, d);
    FarBegins(j, d);
    FarReaches(j, d, InitState(j, d), s);
  }

  /** When the labelling is over every label is final. */
  lemma FarIdle(j: Job, d: Dsu, s: State, k: nat)
    requires FarSoFar(j, d, s) && AllIdle(s) && k < j.N()
    ensures |s.lab| == j.N() && j.child[k] < d.Size() && Far(d, j.child[k], s.lab[k])
  {
    assert Labelled(j, s, k);
  }

  lemma FarReaches(j: Job, d: Dsu, s: State, r: State)
    requires FarFrom(j, d, s, s) && Reaches(j, s, r)
    ensures FarFrom(j, d, s, r)
  {
    var inv := (x: State) => FarFrom(j, d, s, x);
    forall a: State, b: State | inv(a) && Steps(j)(a, b)
      ensures inv(b)
    {
      FarNext(j, d, s, a, b);
    }
    Runs.ReachKeeps(Steps(j), inv, s, r);
  }

  /** The labelling phase under any schedule. */
  method GatherLabels(j: Job, d: Dsu) returns (s: State)
    requires j.Valid() && d.Valid() && d.Size() == j.N()
    ensures GatherInv(j, d, s) && Result(j, d, s)
  {
    s := InitState(j, d);
    GatherStart(j, d);
    ReachesItself(j, s);
    while exists t: nat :: t < |s.ws| && !Idle(s.ws[t])
      invariant GatherInv(j, d, s) && Reaches(j, InitState(j, d), s)
      decreases |Unlabelled(j, s)|, Total(FindLeft(j, s)), Total(CaptureLeft(s))
    {
      var t: nat :| t < |s.ws| && !Idle(s.ws[t]);
      s := GatherMove(j, d, s, t);
    }
  }

  /** One atomic step of thread t. */
  method GatherMove(j: Job, ghost d: Dsu, s: State, t: nat) returns (r: State)
    requires GatherInv(j, d, s) && t < |s.ws| && !Idle(s.ws[t])
    requires Reaches(j, InitState(j, d), s)
    ensures GatherInv(j, d, r) && Progress(j, s, r) && Reaches(j, InitState(j, d), r)
  {
    var pick: nat := *;
    ghost var l, q := CanMove(j, d, s, t, pick);
    match s.ws[t] {
      case Looking(pos, f) =>
        r := if f.Found? then LabelMove(j, s, t) else FindMove(s, t, pick);
        l := 0;
      case Capturing(todo) =>
        var root: nat :| root in todo;
        GatherCapture(j, d, s, t, root);
        r := CaptureMove(j, s, t, root);
        l := root;
    }
    assert Moves(j, s, t, pick, l, r);
    MoveKeeps(j, d, s, t, pick, l, r);
    ReachesNext(j, InitState(j, d), s, t, pick, l, r);
  }

  /** Every run can be finished. */
  lemma Finishes(j: Job, d: Dsu, s0: State, s: State) returns (r: State)
    requires GatherInv(j, d, s) && Reaches(j, s0, s)
    ensures GatherInv(j, d, r) && Reaches(j, s0, r) && AllIdle(r) && Keeps(j, s, r)
  {
    r := s;
    while !AllIdle(r)
      invariant GatherInv(j, d, r) && Reaches(j, s0, r) && Keeps(j, s, r)
      decreases |Unlabelled(j, r)|, Total(FindLeft(j, r)), Total(CaptureLeft(r))
    {
      var t: nat :| t < |r.ws| && !Idle(r.ws[t]);
      var l, q := CanMove(j, d, r, t, 0);
      MoveKeeps(j, d, r, t, 0, l, q);
      ReachesNext(j, s0, r, t, 0, l, q);
      r := q;
    }
  }

}
