// When the snapshot handed to the user is exact under every schedule
// (src/return_types.cpp, lines 5-19).

module SnapshotRace {
  import opened Counting
  import opened DsuSpec
  import opened DsuConcurrent
  import opened DsuFindRace
  import opened Snapshot

  /** Workers 0 and 1 stand where two searches from a and u do. */
  ghost predicate Staged(d0: Dsu, s: State, a: nat, u: nat, fs: Finders) {
    SnapInv(d0, s) && Mirrors(s, a, u, fs)
  }

  ghost predicate Mirrors(s: State, a: nat, u: nat, fs: Finders) {
    && |s.ws| >= 2 && Ok(fs) && fs.starts == [a, u] && s.d == fs.d
    && s.ws[0] == Seeking(a, fs.finds[0]) && s.ws[1] == Seeking(u, fs.finds[1])
  }

  lemma MirrorsStep(s: State, a: nat, u: nat, fs: Finders, who: nat, pick: nat) returns (r: State)
    requires Mirrors(s, a, u, fs) && who < 2 && !fs.finds[who].Found?
    ensures Moves(s, who, pick, 0, r) && Mirrors(r, a, u, Step(fs, who, pick))
  {
    assert FindInv(fs.d, fs.starts[who], fs.finds[who]);
    r := SeekMove(s, who, pick);
  }

  lemma StageStep(d0: Dsu, s0: State, s: State, a: nat, u: nat, fs: Finders, who: nat, pick: nat) returns (r: State)
    requires Staged(d0, s, a, u, fs) && Reaches(s0, s)
    ensures Staged(d0, r, a, u, Step(fs, who, pick)) && Reaches(s0, r)
  {
    r := s;
    if who < 2 && !fs.finds[who].Found? {
      r := MirrorsStep(s, a, u, fs, who, pick);
      OneMove(d0, s0, s, who, pick, 0, r);
    }
  }

  lemma OneMove(d0: Dsu, s0: State, s: State, t: nat, pick: nat, i: nat, r: State)
    requires SnapInv(d0, s) && Reaches(s0, s) && Moves(s, t, pick, i, r)
    ensures SnapInv(d0, r) && Reaches(s0, r)
  {
    MoveKeeps(d0, s, t, pick, i, r);
    ReachesNext(s0, s, t, pick, i, r);
  }

  /** Whatever two searches can do on their own, two workers can do. */
  lemma {:induction false} StageRun(d0: Dsu, s0: State, s: State, a: nat, u: nat, fs: Finders, schedule: seq<(nat, nat)>)
    returns (r: State)
    requires Staged(d0, s, a, u, fs) && Reaches(s0, s)
    ensures Staged(d0, r, a, u, After(fs, schedule)) && Reaches(s0, r)
    decreases |schedule|
  {
    if schedule == [] {
      r := s;
    } else {
      var m := |schedule| - 1;
      r := StageRun(d0, s0, s, a, u, fs, schedule[..m]);
      r := StageStep(d0, s0, r, a, u, After(fs, schedule[..m]), schedule[m].0, schedule[m].1);
    }
  }

  /** Two workers take up two iterations. */
  lemma TakeUp(d: Dsu, threads: nat, a: nat, u: nat) returns (s: State)
    requires d.Valid() && threads >= 2 && a < d.Size() && u < d.Size() && a != u
    ensures Staged(d, s, a, u, Begin(d, [a, u])) && Reaches(Init(d, threads), s) && |s.ws| == threads
  {
    var s0 := Init(d, threads);
    InitInv(d, threads);
    ReachesItself(s0);
    var s1 := StartMove(s0, 0, a);
    OneMove(d, s0, s0, 0, 0, a, s1);
    s := StartMove(s1, 1, u);
    OneMove(d, s0, s1, 1, 0, u, s);
  }

  /** A search that ended wrong becomes a wrong label. */
  lemma WrongLabel(d: Dsu, s0: State, s: State, t: nat, i: nat, g: nat) returns (r: State)
    requires SnapInv(d, s) && Reaches(s0, s) && t < |s.ws| && s.ws[t] == Seeking(i, Found(g)) && i < d.Size() && g != d.Root(i)
    ensures SnapInv(d, r) && Reaches(s0, r) && Complete(r) && |r.lab| == d.Size() && r.lab[i] != d.Root(i)
  {
    assert WorkerOk(s, s.ws[t]);
    var next := RecordMove(s, t);
    OneMove(d, s0, s, t, 0, 0, next);
    r := Finishes(d, s0, next);
    assert i in next.got && next.lab[i] == g;
  }

  lemma WrongSnapshot(d: Dsu, threads: nat, a: nat) returns (r: State)
    requires d.Valid() && threads >= 2 && a < d.Size() && !d.IsRoot(Grand(d, Grand(d, a)))
    ensures Result(d, threads, r) && !Faithful(d, r.lab, r.count)
  {
    var u := Grand(d, a);
    FarUp(d, a);
    RaceApartMissesRoot(d, [a, u], a);
    var schedule: seq<(nat, nat)> :| !AllRoots(d, After(Begin(d, [a, u]), schedule));
    var s := TakeUp(d, threads, a, u);
    s := StageRun(d, Init(d, threads), s, a, u, Begin(d, [a, u]), schedule);
    r := FromStage(d, threads, s, a, u, After(Begin(d, [a, u]), schedule));
  }

  lemma FromStage(d: Dsu, threads: nat, s: State, a: nat, u: nat, fs: Finders) returns (r: State)
    requires d.Valid() && a < d.Size() && u < d.Size() && Staged(d, s, a, u, fs) && Reaches(Init(d, threads), s)
    requires !AllRoots(d, fs)
    ensures Result(d, threads, r) && !Faithful(d, r.lab, r.count)
  {
    var t: nat :| t < 2 && fs.finds[t].Found? && fs.finds[t].r != d.Root(fs.starts[t]);
    r := WrongLabel(d, Init(d, threads), s, t, fs.starts[t], fs.finds[t].r);
  }

  /** Every schedule, and every division of the iterations over the threads, gives a faithful snapshot. */
  ghost predicate AlwaysFaithful(d: Dsu, threads: nat) {
    forall s: State | Result(d, threads, s) :: Faithful(d, s.lab, s.count)
  }

  /** For one union-find: snapshots are always faithful exactly with one thread or in a low forest. */
  lemma FaithfulIff(d: Dsu, threads: nat)
    requires d.Valid() && threads > 0
    ensures AlwaysFaithful(d, threads) <==> threads == 1 || Low(d)
  {
    if threads == 1 || Low(d) {
      forall s: State | Result(d, threads, s)
        ensures Faithful(d, s.lab, s.count)
      {
        InitInv(d, threads);
        ReachKeeps(d, Init(d, threads), s);
        SnapEnd(d, s);
      }
    } else {
      var a: nat :| a < d.Size() && !d.IsRoot(Grand(d, Grand(d, a)));
      var r := WrongSnapshot(d, threads, a);
    }
  }

  /** For a number of vertices: exactly with one thread or at most five vertices. */
  lemma FaithfulForAllIff(n: nat, threads: nat)
    requires threads > 0
    ensures (forall d: Dsu | d.Valid() && d.Size() == n :: AlwaysFaithful(d, threads)) <==> threads == 1 || n <= 5
  {
    if threads == 1 || n <= 5 {
      forall d: Dsu | d.Valid() && d.Size() == n
        ensures AlwaysFaithful(d, threads)
      {
        if n <= 5 {
          SmallIsLow(d);
        }
        FaithfulIff(d, threads);
      }
    } else {
      ChainIsHigh(n);
      FaithfulIff(Chain(n), threads);
    }
  }
}
