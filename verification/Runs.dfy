// Runs of a step relation, whatever the states are.

module Runs {

  ghost predicate IsRun<S(!new)>(next: (S, S) -> bool, run: seq<S>) {
    run != [] && forall i: nat, k: nat | k == i + 1 && k < |run| :: next(run[i], run[k])
  }

  /** Some run leads from s to r. */
  ghost predicate Reaches<S(!new)>(next: (S, S) -> bool, s: S, r: S) {
    exists run: seq<S> :: IsRun(next, run) && run[0] == s && run[|run| - 1] == r
  }

  lemma ReachesItself<S(!new)>(next: (S, S) -> bool, s: S)
    ensures Reaches(next, s, s)
  {
    assert IsRun(next, [s]) && [s][0] == s;
  }

  lemma ReachesNext<S(!new)>(next: (S, S) -> bool, s: S, r: S, q: S)
    requires Reaches(next, s, r) && next(r, q)
    ensures Reaches(next, s, q)
  {
    var run: seq<S> :| IsRun(next, run) && run[0] == s && run[|run| - 1] == r;
    var longer := run + [q];
    forall i: nat, k: nat | k == i + 1 && k < |longer|
      ensures next(longer[i], longer[k])
    {
      if k < |run| {
        assert next(run[i], run[k]);
      }
    }
    assert longer[0] == s && longer[|longer| - 1] == q;
  }

  lemma {:induction false} RunKeeps<S(!new)>(next: (S, S) -> bool, inv: S -> bool, run: seq<S>)
    requires IsRun(next, run) && inv(run[0])
    requires forall s: S, r: S | inv(s) && next(s, r) :: inv(r)
    ensures inv(run[|run| - 1])
  {
    if |run| > 1 {
      var m := |run| - 1;
      RunKeeps(next, inv, run[..m]);
      assert next(run[m - 1], run[m]);
    }
  }

  /** What every step keeps, every run keeps. */
  lemma ReachKeeps<S(!new)>(next: (S, S) -> bool, inv: S -> bool, s: S, r: S)
    requires Reaches(next, s, r) && inv(s)
    requires forall a: S, b: S | inv(a) && next(a, b) :: inv(b)
    ensures inv(r)
  {
    var run: seq<S> :| IsRun(next, run) && run[0] == s && run[|run| - 1] == r;
    RunKeeps(next, inv, run);
  }
}
