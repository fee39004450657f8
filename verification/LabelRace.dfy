// When the labels of create_merge_instructions are roots under every schedule
// (src/cc_sketch_alg.cpp, lines 386-419): a race between two find_root calls, staged inside
// the labelling phase.

module LabelRace {
  import opened Counting
  import opened DsuSpec
  import opened DsuConcurrent
  import opened DsuFindRace
  import opened Jobs
  import opened Gather
  import opened GatherRuns
  import opened Partition
  import opened MergeInstructions

  /** Threads w and w + 1 start looking for the labels of positions p and q. */
  ghost predicate Ready(j: Job, d0: Dsu, s: State, w: nat, p: nat, q: nat) {
    && GatherInv(j, d0, s) && w + 1 < j.Threads() && p < j.N() && q < j.N()
    && s.ws[w] == Looking(p, StartFind(j.child[p])) && s.ws[w + 1] == Looking(q, StartFind(j.child[q]))
  }

  /** The state in which these two threads stand where the searches fs do. */
  function Lift(s: State, w: nat, p: nat, q: nat, fs: Finders): State
    requires w + 1 < |s.ws| && |fs.finds| == 2
  {
    s.(d := fs.d, ws := s.ws[w := Looking(p, fs.finds[0])][w + 1 := Looking(q, fs.finds[1])])
  }

  lemma LiftMoves(j: Job, s: State, w: nat, p: nat, q: nat, fs: Finders, who: nat, pick: nat)
    requires w + 1 < |s.ws| && Ok(fs) && |fs.finds| == 2 && who < 2 && !fs.finds[who].Found?
    requires Workers(j, Lift(s, w, p, q, fs))
    ensures Moves(j, Lift(s, w, p, q, fs), w + who, pick, 0, Lift(s, w, p, q, Step(fs, who, pick)))
  {
    assert FindInv(fs.d, fs.starts[who], fs.finds[who]);
    assert Lift(s, w, p, q, Step(fs, who, pick)).ws == FindMove(Lift(s, w, p, q, fs), w + who, pick).ws;
  }

  lemma LiftStep(j: Job, s0: State, s: State, w: nat, p: nat, q: nat, fs: Finders, who: nat, pick: nat)
    requires w + 1 < |s.ws| && Ok(fs) && |fs.finds| == 2
    requires Workers(j, Lift(s, w, p, q, fs)) && Reaches(j, s0, Lift(s, w, p, q, fs))
    ensures Reaches(j, s0, Lift(s, w, p, q, Step(fs, who, pick)))
  {
    if who < 2 && !fs.finds[who].Found? {
      LiftMoves(j, s, w, p, q, fs, who, pick);
      ReachesNext(j, s0, Lift(s, w, p, q, fs), w + who, pick, 0, Lift(s, w, p, q, Step(fs, who, pick)));
    }
  }

  /** Whatever two searches can do on their own, these threads can do. */
  lemma {:induction false} LiftRun(j: Job, d0: Dsu, s0: State, s: State, w: nat, p: nat, q: nat, fs: Finders,
                                     schedule: seq<(nat, nat)>)
    requires Ready(j, d0, s, w, p, q) && GatherInv(j, d0, s0) && Reaches(j, s0, s)
    requires Ok(fs) && |fs.finds| == 2 && Lift(s, w, p, q, fs) == s
    ensures Reaches(j, s0, Lift(s, w, p, q, After(fs, schedule)))
    ensures GatherInv(j, d0, Lift(s, w, p, q, After(fs, schedule)))
  {
    if schedule != [] {
      var m := |schedule| - 1;
      LiftRun(j, d0, s0, s, w, p, q, fs, schedule[..m]);
      LiftStep(j, s0, s, w, p, q, After(fs, schedule[..m]), schedule[m].0, schedule[m].1);
    }
    ReachKeeps(j, d0, s0, Lift(s, w, p, q, After(fs, schedule)));
  }

  /** The two searches on their own. */
  ghost function Two(s: State, j: Job, p: nat, q: nat): (fs: Finders)
    requires s.d.Valid() && p < |j.child| && q < |j.child| && j.child[p] < s.d.Size() && j.child[q] < s.d.Size()
    ensures Ok(fs) && fs.d == s.d && fs.starts == [j.child[p], j.child[q]]
    ensures fs.finds == [StartFind(j.child[p]), StartFind(j.child[q])]
  {
    Begin(s.d, [j.child[p], j.child[q]])
  }

  lemma LiftStart(j: Job, d0: Dsu, s: State, w: nat, p: nat, q: nat)
    requires Ready(j, d0, s, w, p, q)
    ensures s.d.Valid() && p < |j.child| && q < |j.child| && j.child[p] < s.d.Size() && j.child[q] < s.d.Size()
    ensures Lift(s, w, p, q, Two(s, j, p, q)) == s
  {
    assert Lift(s, w, p, q, Two(s, j, p, q)).ws == s.ws;
  }

  /** A search that ended becomes a label. */
  lemma BecomesLabel(j: Job, d0: Dsu, s0: State, s: State, t: nat, p: nat, r: nat) returns (next: State)
    requires GatherInv(j, d0, s) && Reaches(j, s0, s) && t < j.Threads() && s.ws[t] == Looking(p, Found(r)) && p < j.N()
    ensures GatherInv(j, d0, next) && Reaches(j, s0, next) && Labelled(j, next, p) && next.lab[p] == r
  {
    assert WorkerInv(j, s, t);
    assert j.owner[p] == t;
    next := LabelMove(j, s, t);
    assert Moves(j, s, t, 0, 0, next);
    MoveKeeps(j, d0, s, t, 0, 0, next);
    ReachesNext(j, s0, s, t, 0, 0, next);
  }

  /** If one of two searches can go wrong, some run ends with a wrong label. */
  lemma WrongLabel(j: Job, d0: Dsu, s: State, w: nat, p: nat, q: nat, end: Finders, t: nat) returns (k: nat, r: State)
    requires Ready(j, d0, s, w, p, q) && GatherInv(j, d0, InitState(j, d0)) && |end.finds| == |end.starts| == 2 && t < 2
    requires Reaches(j, InitState(j, d0), Lift(s, w, p, q, end)) && GatherInv(j, d0, Lift(s, w, p, q, end))
    requires end.finds[t].Found? && end.finds[t].r != d0.Root(j.child[if t == 0 then p else q])
    ensures GatherInv(j, d0, r) && Result(j, d0, r) && k < j.N() && r.lab[k] != d0.Root(j.child[k])
  {
    k := if t == 0 then p else q;
    assert Lift(s, w, p, q, end).ws[w + t] == Looking(k, end.finds[t]);
    var next := BecomesLabel(j, d0, InitState(j, d0), Lift(s, w, p, q, end), w + t, k, end.finds[t].r);
    r := EndsWith(j, d0, next, k);
  }

  /** A label that has been recorded is there at the end of some run. */
  lemma EndsWith(j: Job, d0: Dsu, s: State, k: nat) returns (r: State)
    requires j.Valid() && GatherInv(j, d0, s) && Reaches(j, InitState(j, d0), s) && k < j.N() && Labelled(j, s, k)
    ensures GatherInv(j, d0, r) && Result(j, d0, r) && r.lab[k] == s.lab[k]
  {
    r := Finishes(j, d0, InitState(j, d0), s);
  }

  // Instructions

  /** Whatever the schedule and the order of the instructions before, every vertex is filed under its root. */
  ghost predicate AlwaysFiled(d: Dsu, threads: nat)
    requires d.Valid() && 1 <= threads <= d.Size()
  {
    forall old_mi: seq<MergeInstr>, e: Dsu, mi: seq<MergeInstr> |
      |old_mi| == d.Size() && Permutation(old_mi) && Outcome(d, old_mi, threads, e, mi) ::
      FiledUnderRoot(mi, d)
  }

  /** The outcome of the race between searches from a and from its grandparent. */
  ghost predicate Raced(d: Dsu, a: nat, end: Finders)
    requires d.Valid() && a < d.Size()
  {
    exists schedule: seq<(nat, nat)> :: After(Begin(d, [a, Grand(d, a)]), schedule) == end
  }

  /** The race itself: the first search ends four links up, the second has halved its path. */
  lemma RaceOf(d: Dsu, a: nat) returns (end: Finders)
    requires d.Valid() && a < d.Size() && !d.IsRoot(Grand(d, Grand(d, a)))
    ensures Raced(d, a, end)
    ensures var u := Grand(d, a); var y := Grand(d, u);
      end == Finders(d.(parent := d.parent[a := u][u := y]), [a, u], [Found(y), Advance(u)])
  {
    var u := Grand(d, a);
    var starts := [a, u];
    RaceApart(d, starts, a);
    end := Met(Climbed(Begin(d, starts), a), u);
    LeadsIsRaced(d, a, end);
    assert end.finds == [end.finds[0], end.finds[1]];
  }

  lemma LeadsIsRaced(d: Dsu, a: nat, end: Finders)
    requires d.Valid() && a < d.Size() && Leads(Begin(d, [a, Grand(d, a)]), end)
    ensures Raced(d, a, end)
  {
    var schedule: seq<(nat, nat)> :| After(Begin(d, [a, Grand(d, a)]), schedule) == end;
  }

  lemma LiftRace(j: Job, d0: Dsu, s0: State, s: State, w: nat, p: nat, q: nat, end: Finders, a: nat)
    requires Ready(j, d0, s, w, p, q) && GatherInv(j, d0, s0) && Reaches(j, s0, s)
    requires s.d.Valid() && a < s.d.Size() && Raced(s.d, a, end)
    requires j.child[p] == a && j.child[q] == Grand(s.d, a)
    ensures |end.finds| == 2 && Reaches(j, s0, Lift(s, w, p, q, end)) && GatherInv(j, d0, Lift(s, w, p, q, end))
  {
    var schedule: seq<(nat, nat)> :| After(Begin(s.d, [a, Grand(s.d, a)]), schedule) == end;
    LiftStart(j, d0, s, w, p, q);
    LiftRun(j, d0, s0, s, w, p, q, Two(s, j, p, q), schedule);
  }

  lemma StartsReady(j: Job, d: Dsu)
    requires j.Valid() && d.Valid() && d.Size() == j.N() && j.Threads() >= 2
    ensures j.lo[1] < j.N() && Ready(j, d, InitState(j, d), 0, 0, j.lo[1])
  {
    GatherStart(j, d);
    assert j.lo[1] < j.lo[2] <= j.N();
  }

  /** The vertex a comes first in partition 0, its grandparent first in partition 1. */
  lemma WrongWhenHigh(j: Job, d: Dsu, a: nat) returns (k: nat, r: State)
    requires j.Valid() && d.Valid() && d.Size() == j.N() && j.Threads() >= 2 && a < d.Size()
    requires j.lo[1] < j.N() && j.child[0] == a && j.child[j.lo[1]] == Grand(d, a)
    requires !d.IsRoot(Grand(d, Grand(d, a)))
    ensures Result(j, d, r) && |r.lab| == j.N() && k < j.N() && r.lab[k] != d.Root(j.child[k])
  {
    StartsReady(j, d);
    var s := InitState(j, d);
    ReachesItself(j, s);
    var end := RaceOf(d, a);
    LiftRace(j, d, s, s, 0, 0, j.lo[1], end, a);
    k, r := WrongLabel(j, d, s, 0, 0, j.lo[1], end, 0);
  }

  /** A wrong label files some vertex under an element that is not its root. */
  lemma Misfiled(d: Dsu, old_mi: seq<MergeInstr>, threads: nat, s: State, k: nat) returns (mi: seq<MergeInstr>)
    requires d.Valid() && |old_mi| == d.Size() && Permutation(old_mi) && 1 <= threads <= |old_mi|
    requires Result(MakeJob(Children(old_mi), threads), d, s) && |s.lab| == |old_mi|
    requires k < |old_mi| && s.lab[k] != d.Root(old_mi[k].child)
    ensures Outcome(d, old_mi, threads, s.d, mi) && !FiledUnderRoot(mi, d)
  {
    var j := MakeJob(Children(old_mi), threads);
    MakeJobValid(Children(old_mi), threads);
    mi := Sorts(j, d, s);
    assert FromLabels(d, old_mi, threads, s, mi);
    KeepsWrong(d, Children(old_mi), s.lab, mi, k);
  }

  lemma KeepsWrong(d: Dsu, child: seq<nat>, lab: seq<nat>, mi: seq<MergeInstr>, k: nat)
    requires d.Valid() && |child| == |lab| == |mi| == d.Size() && Distinct(child) && Permutation(mi)
    requires forall a: nat | a < |mi| :: Files(child, lab, mi[a])
    requires k < |child| && child[k] < |mi| && lab[k] != d.Root(child[k])
    ensures !FiledUnderRoot(mi, d)
  {
    var a := PlaceOf(mi, child[k]);
    assert Files(child, lab, mi[a]);
    var m: nat :| m < |child| && mi[a] == MergeInstr(lab[m], child[m]);
    assert child[m] == child[k];
  }

  lemma NotAlwaysFiled(d: Dsu, threads: nat, a: nat)
    requires d.Valid() && 2 <= threads <= d.Size() && a < d.Size() && !d.IsRoot(Grand(d, Grand(d, a)))
    ensures !AlwaysFiled(d, threads)
  {
    FarUp(d, a);
    var old_mi := Apart(d.Size(), threads, a, Grand(d, a));
    MakeJobValid(Children(old_mi), threads);
    var k, s := WrongWhenHigh(MakeJob(Children(old_mi), threads), d, a);
    var mi := Misfiled(d, old_mi, threads, s, k);
  }

  /** Two different vertices can come first in partitions 0 and 1. */
  lemma Apart(n: nat, threads: nat, a: nat, u: nat) returns (old_mi: seq<MergeInstr>)
    requires 2 <= threads <= n && a < n && u < n && a != u
    ensures |old_mi| == n && Permutation(old_mi) && 0 < Start(n, 1, threads) < n
    ensures old_mi[0].child == a && old_mi[Start(n, 1, threads)].child == u
  {
    PartitionsTile(n, threads, 0);
    PartitionsTile(n, threads, 1);
    var order := PlaceTwo(n, Start(n, 1, threads), a, u);
    old_mi := seq(n, k requires 0 <= k < n => MergeInstr(0, order[k]));
    assert Children(old_mi) == order;
  }

  /** For one union-find: instructions are always exact precisely with one thread or in a low forest. */
  lemma FiledIff(d: Dsu, threads: nat)
    requires d.Valid() && 1 <= threads <= d.Size()
    ensures AlwaysFiled(d, threads) <==> threads == 1 || Low(d)
  {
    if threads == 1 || Low(d) {
      forall old_mi: seq<MergeInstr>, e: Dsu, mi: seq<MergeInstr> |
        |old_mi| == d.Size() && Permutation(old_mi) && Outcome(d, old_mi, threads, e, mi)
        ensures FiledUnderRoot(mi, d)
      {
        OutcomeFiled(d, old_mi, threads, e, mi);
      }
    } else {
      var a: nat :| a < d.Size() && !d.IsRoot(Grand(d, Grand(d, a)));
      NotAlwaysFiled(d, threads, a);
    }
  }

  /** For a number of vertices: precisely with one thread or at most five vertices. */
  lemma FiledForAllIff(n: nat, threads: nat)
    requires 1 <= threads <= n
    ensures (forall d: Dsu | d.Valid() && d.Size() == n :: AlwaysFiled(d, threads)) <==> threads == 1 || n <= 5
  {
    if threads == 1 || n <= 5 {
      forall d: Dsu | d.Valid() && d.Size() == n
        ensures AlwaysFiled(d, threads)
      {
        if n <= 5 {
          SmallIsLow(d);
        }
        FiledIff(d, threads);
      }
    } else {
      ChainIsHigh(n);
      FiledIff(Chain(n), threads);
    }
  }
}
