// The first round, where every vertex is its own component and nothing has to be merged
// (src/cc_sketch_alg.cpp, run_round_zero).

module RoundZero {
  import opened Counting
  import opened Buckets
  import opened Graphs
  import opened DsuSpec
  import opened DsuConcurrent
  import opened SketchSpec
  import opened Partition
  import opened RoundSpec
  import opened SampleLog
  import Runs
  import S = Supernode

  /** idx[v] is the sample index of vertex v's sketch, todo the loop iterations not started yet. */
  datatype State = State(sys: S.Sys, todo: set<nat>, idx: seq<nat>, log: seq<Entry>, except: bool)

  /** The instructions a query starts from. */
  function Identity(n: nat): (mi: seq<MergeInstr>)
    ensures |mi| == n && forall i: nat | i < n :: mi[i] == MergeInstr(i, i)
  {
    seq(n, i requires 0 <= i => MergeInstr(i, i))
  }

  /** An idle thread starts iteration v; a sample that fails to exist leaves the index alone. */
  function SampleVertex(p: Params, vs: seq<seq<Bucket>>, s: State, t: nat, v: nat): State
    requires p.Valid() && v < |vs| == |s.idx| && |vs[v]| == p.NumBuckets() && t < |s.sys.sups|
  {
    var o := Sampled(p, SketchVal(vs[v], s.idx[v]));
    State(S.Begin(s.sys, t, o), s.todo - {v},
          s.idx[v := if o.OutOfSamples? then s.idx[v] else s.idx[v] + 1],
          s.log + [Entry(v, o)], s.except || o.OutOfSamples?)
  }

  ghost predicate LogSoFar(p: Params, vs: seq<seq<Bucket>>, todo: set<nat>, log: seq<Entry>)
    requires p.Valid()
  {
    && OncePerRoot(log)
    && (forall a: nat | a < |log| :: EntryRight(p, vs, 0, Identity(|vs|), log[a]))
    && (forall v: nat | v < |vs| :: Logged(log, v) <==> v !in todo)
  }

  ghost predicate IdxSoFar(p: Params, todo: set<nat>, idx: seq<nat>) {
    forall v: nat | v < |idx| :: idx[v] == if v in todo || p.numSamples == 0 then 0 else 1
  }

  ghost predicate ZeroInv(p: Params, vs: seq<seq<Bucket>>, f: Graph, s: State) {
    && p.Valid() && (forall v: nat | v < |vs| :: |vs[v]| == p.NumBuckets())
    && |s.idx| == |vs| && s.todo <= Range(0, |vs|)
    && LogSoFar(p, vs, s.todo, s.log) && IdxSoFar(p, s.todo, s.idx)
    && S.SysInv(s.sys, f) && Record(s.sys, s.except, s.log)
  }

  lemma LoneGroup(p: Params, vs: seq<seq<Bucket>>, v: nat)
    requires p.Valid() && v < |vs| && |vs[v]| == p.NumBuckets()
    ensures Answer(p, vs, 0, Group(Identity(|vs|), v)) == Sampled(p, SketchVal(vs[v], 0))
  {
    assert v in Range(0, |vs|) && Identity(|vs|)[v] == MergeInstr(v, v);
    assert Group(Identity(|vs|), v) == {v};
    XoredAlone(p, vs, v);
  }

  lemma EntryAdded(p: Params, vs: seq<seq<Bucket>>, todo: set<nat>, log: seq<Entry>, v: nat)
    requires p.Valid() && LogSoFar(p, vs, todo, log) && v < |vs| && v in todo && |vs[v]| == p.NumBuckets()
    ensures LogSoFar(p, vs, todo - {v}, log + [Entry(v, Sampled(p, SketchVal(vs[v], 0)))])
  {
    var e := Entry(v, Sampled(p, SketchVal(vs[v], 0)));
    LoneGroup(p, vs, v);
    assert Identity(|vs|)[v].root == v;
    OnceMore(log, e);
    forall u: nat | u < |vs|
      ensures Logged(log + [e], u) <==> u !in todo - {v}
    {
      LoggedSnoc(log, e, u);
    }
    forall a: nat | a < |log + [e]|
      ensures EntryRight(p, vs, 0, Identity(|vs|), (log + [e])[a])
    {
      assert a < |log| ==> EntryRight(p, vs, 0, Identity(|vs|), log[a]);
    }
  }

  lemma SampleSys(f: Graph, sys: S.Sys, raised: bool, log: seq<Entry>, t: nat, e: Entry)
    requires S.SysInv(sys, f) && Record(sys, raised, log) && t < |sys.sups| && sys.sups[t].Idle?
    ensures var r := S.Begin(sys, t, e.outcome);
      S.SysInv(r, f) && Record(r, raised || e.outcome.OutOfSamples?, log + [e]) && r.d == sys.d && |r.sups| == |sys.sups|
  {
    S.BeginKeeps(sys, f, t, e.outcome);
    RecordBegin(sys, raised, log, t, e);
  }

  lemma SampleIdx(p: Params, vs: seq<seq<Bucket>>, s: State, t: nat, v: nat)
    requires p.Valid() && v < |vs| == |s.idx| && |vs[v]| == p.NumBuckets() && t < |s.sys.sups|
    requires IdxSoFar(p, s.todo, s.idx) && v in s.todo
    ensures s.idx[v] == 0
    ensures var r := SampleVertex(p, vs, s, t, v); IdxSoFar(p, r.todo, r.idx)
  {
  }

  /** Starting an iteration keeps the invariant. */
  lemma SampleKeeps(p: Params, vs: seq<seq<Bucket>>, f: Graph, s: State, t: nat, v: nat)
    requires ZeroInv(p, vs, f, s) && t < |s.sys.sups| && s.sys.sups[t].Idle? && v in s.todo
    ensures v < |vs| && ZeroInv(p, vs, f, SampleVertex(p, vs, s, t, v))
    ensures var r := SampleVertex(p, vs, s, t, v); r.sys.d == s.sys.d && |r.sys.sups| == |s.sys.sups|
  {
    SampleIdx(p, vs, s, t, v);
    EntryAdded(p, vs, s.todo, s.log, v);
    SampleSys(f, s.sys, s.except, s.log, t, Entry(v, Sampled(p, SketchVal(vs[v], 0))));
  }

  /** Working on a sample in hand. */
  function Work(f: Graph, s: State, t: nat, ch: Choice): State
    requires S.SysInv(s.sys, f) && t < |s.sys.sups| && !s.sys.sups[t].Idle?
  {
    S.AdvanceKeeps(s.sys, f, t, ch);
    s.(sys := S.Advance(s.sys, t, ch))
  }

  lemma WorkKeeps(p: Params, vs: seq<seq<Bucket>>, f: Graph, s: State, t: nat, ch: Choice)
    requires ZeroInv(p, vs, f, s) && t < |s.sys.sups| && !s.sys.sups[t].Idle?
    ensures var r := Work(f, s, t, ch);
      && ZeroInv(p, vs, f, r) && Evolves(s.sys.d, r.sys.d) && |r.sys.sups| == |s.sys.sups|
      && (!ch.spurious ==> Total(S.SupMeasures(r.sys, f)) < Total(S.SupMeasures(s.sys, f)))
  {
    S.AdvanceKeeps(s.sys, f, t, ch);
    AdvanceSys(f, s.sys, s.except, s.log, t, ch);
    if !ch.spurious {
      S.SupDrops(s.sys, f, t, ch);
    }
  }

  lemma ZeroEnd(p: Params, vs: seq<seq<Bucket>>, d: Dsu, f: Graph, s: State)
    requires ZeroInv(p, vs, f, s) && s.todo == {} && Evolves(d, s.sys.d)
    requires forall t: nat | t < |s.sys.sups| :: s.sys.sups[t].Idle?
    ensures RoundOk(p, vs, 0, Identity(|vs|), d, f, s.sys, s.except, s.log)
  {
    forall k: nat | k < |vs|
      ensures Logged(s.log, Identity(|vs|)[k].root)
    {
      assert Logged(s.log, k);
    }
  }

  function StartState(n: nat, d: Dsu, f: Graph, threads: nat): State {
    State(S.StartSys(d, f, threads), Range(0, n), seq(n, _ => 0), [], false)
  }

  lemma StartInv(p: Params, vs: seq<seq<Bucket>>, d: Dsu, f: Graph, threads: nat)
    requires p.Valid() && (forall v: nat | v < |vs| :: |vs[v]| == p.NumBuckets()) && S.ForestOf(d, f)
    ensures ZeroInv(p, vs, f, StartState(|vs|, d, f, threads))
  {
    S.StartKeeps(d, f, threads);
    RecordStart(d, f, threads);
    forall v: nat | v < |vs|
      ensures v in Range(0, |vs|)
    {
    }
  }

  // Runs

  /** A division of the iterations: the thread that runs each. */
  predicate Shares(owner: seq<nat>, n: nat, threads: nat) {
    |owner| == n && forall v: nat | v < n :: owner[v] < threads
  }

  /** v is the next iteration of thread t, which takes its share in ascending order. */
  predicate Turn(owner: seq<nat>, todo: set<nat>, t: nat, v: nat) {
    v in todo && v < |owner| && owner[v] == t && forall u | u in todo && u < |owner| && owner[u] == t :: v <= u
  }

  /** Thread t may take s to r; ch resolves a racing load or a spurious failure. */
  ghost predicate Moves(p: Params, vs: seq<seq<Bucket>>, owner: seq<nat>, s: State, t: nat, v: nat, ch: Choice, r: State) {
    && p.Valid() && s.sys.d.Valid() && t < |s.sys.sups| && |s.idx| == |vs|
    && if s.sys.sups[t].Idle? then
         Turn(owner, s.todo, t, v) && v < |vs| && |vs[v]| == p.NumBuckets() && r == SampleVertex(p, vs, s, t, v)
       else
         (s.sys.sups[t].Merging? ==> MergeInRange(s.sys.d.Size(), s.sys.sups[t].m)) && r == s.(sys := S.Advance(s.sys, t, ch))
  }

  ghost function Steps(p: Params, vs: seq<seq<Bucket>>, owner: seq<nat>): (State, State) -> bool {
    (s: State, r: State) => exists t: nat, v: nat, ch: Choice :: Moves(p, vs, owner, s, t, v, ch, r)
  }

  predicate Over(s: State) {
    s.todo == {} && forall t: nat | t < |s.sys.sups| :: s.sys.sups[t].Idle?
  }

  /** What the parallel loop may leave behind, under one schedule or another. */
  ghost predicate Result(p: Params, vs: seq<seq<Bucket>>, d: Dsu, f: Graph, threads: nat, owner: seq<nat>, s: State) {
    && Shares(owner, |vs|, threads) && Over(s)
    && Runs.Reaches(Steps(p, vs, owner), StartState(|vs|, d, f, threads), s)
  }

  ghost predicate ZeroFrom(p: Params, vs: seq<seq<Bucket>>, d: Dsu, f: Graph, threads: nat, s: State) {
    ZeroInv(p, vs, f, s) && Evolves(d, s.sys.d) && |s.sys.sups| == threads
  }

  lemma MoveKeeps(p: Params, vs: seq<seq<Bucket>>, d: Dsu, f: Graph, threads: nat, owner: seq<nat>,
                  s: State, t: nat, v: nat, ch: Choice, r: State)
    requires ZeroFrom(p, vs, d, f, threads, s) && Moves(p, vs, owner, s, t, v, ch, r)
    ensures ZeroFrom(p, vs, d, f, threads, r)
  {
    if s.sys.sups[t].Idle? {
      SampleKeeps(p, vs, f, s, t, v);
    } else {
      WorkKeeps(p, vs, f, s, t, ch);
      EvolvesTrans(d, s.sys.d, r.sys.d);
    }
  }

  /** However the loop runs, it leaves every vertex sampled once and every sample's effect in place. */
  lemma ResultRight(p: Params, vs: seq<seq<Bucket>>, d: Dsu, f: Graph, threads: nat, owner: seq<nat>, s: State)
    requires p.Valid() && (forall v: nat | v < |vs| :: |vs[v]| == p.NumBuckets())
    requires S.ForestOf(d, f) && d.Size() == |vs| && Result(p, vs, d, f, threads, owner, s)
    ensures RoundOk(p, vs, 0, Identity(|vs|), d, f, s.sys, s.except, s.log)
    ensures |s.idx| == |vs| && forall v: nat | v < |vs| :: s.idx[v] == if p.numSamples == 0 then 0 else 1
  {
    StartInv(p, vs, d, f, threads);
    EvolvesSame(d);
    var inv := (x: State) => ZeroFrom(p, vs, d, f, threads, x);
    forall a: State, b: State | inv(a) && Steps(p, vs, owner)(a, b)
      ensures inv(b)
    {
      var t: nat, v: nat, ch: Choice :| Moves(p, vs, owner, a, t, v, ch, b);
      MoveKeeps(p, vs, d, f, threads, owner, a, t, v, ch, b);
    }
    Runs.ReachKeeps(Steps(p, vs, owner), inv, StartState(|vs|, d, f, threads), s);
    ZeroEnd(p, vs, d, f, s);
  }

  lemma Reached(p: Params, vs: seq<seq<Bucket>>, owner: seq<nat>, s0: State, s: State, t: nat, v: nat, ch: Choice, r: State)
    requires Runs.Reaches(Steps(p, vs, owner), s0, s) && Moves(p, vs, owner, s, t, v, ch, r)
    ensures Runs.Reaches(Steps(p, vs, owner), s0, r)
  {
    Runs.ReachesNext(Steps(p, vs, owner), s0, s, r);
  }

  /** The least iteration left of thread t's share. */
  function NextOf(owner: seq<nat>, todo: set<nat>, t: nat, k: nat): (v: nat)
    requires k <= |owner| && forall u | u in todo && u < k && u < |owner| :: owner[u] != t
    requires exists u :: u in todo && u < |owner| && owner[u] == t
    ensures Turn(owner, todo, t, v)
    decreases |owner| - k
  {
    if k < |owner| && !(k in todo && owner[k] == t) then NextOf(owner, todo, t, k + 1) else k
  }

  /** Some division of the iterations over the threads. */
  method Divide(n: nat, threads: nat) returns (owner: seq<nat>)
    requires threads > 0
    ensures Shares(owner, n, threads)
  {
    owner := [];
    while |owner| < n
      invariant |owner| <= n && forall v: nat | v < |owner| :: owner[v] < threads
    {
      var t: nat := *;
      owner := owner + [t % threads];
    }
  }

  /** The parallel loop under an arbitrary schedule and any division of the iterations over the threads. */
  method RunRoundZero(p: Params, vs: seq<seq<Bucket>>, d: Dsu, f: Graph, threads: nat, owner: seq<nat>, spurious: nat)
    returns (s: State)
    requires p.Valid() && (forall v: nat | v < |vs| :: |vs[v]| == p.NumBuckets())
    requires S.ForestOf(d, f) && d.Size() == |vs| && Shares(owner, |vs|, threads)
    ensures Result(p, vs, d, f, threads, owner, s)
    ensures RoundOk(p, vs, 0, Identity(|vs|), d, f, s.sys, s.except, s.log)
    ensures s.sys.d.Size() == d.Size()
    ensures |s.idx| == |vs| && forall v: nat | v < |vs| :: s.idx[v] == if p.numSamples == 0 then 0 else 1
  {
    StartInv(p, vs, d, f, threads);
    s := StartState(|vs|, d, f, threads);
    EvolvesSame(d);
    Runs.ReachesItself(Steps(p, vs, owner), s);
    var budget := spurious;
    while !Over(s)
      invariant ZeroFrom(p, vs, d, f, threads, s)
      invariant Runs.Reaches(Steps(p, vs, owner), StartState(|vs|, d, f, threads), s)
      decreases budget, |s.todo|, Total(S.SupMeasures(s.sys, f))
    {
      Waiting(p, vs, d, f, threads, owner, s);
      var t: nat :| t < threads && CanGo(owner, s, t);
      if s.sys.sups[t].Idle? {
        s := TakeNext(p, vs, d, f, threads, owner, s, t);
      } else {
        var pick: nat := *;
        var fails: bool := *;
        var ch := Choice(pick, fails && budget > 0);
        if ch.spurious {
          budget := budget - 1;
        }
        s := WorkOn(p, vs, d, f, threads, owner, s, t, ch);
      }
    }
    ResultRight(p, vs, d, f, threads, owner, s);
  }

  /** Thread t has work in hand or an iteration left. */
  predicate CanGo(owner: seq<nat>, s: State, t: nat) {
    t < |s.sys.sups| && (s.sys.sups[t].Idle? ==> exists u :: u in s.todo && u < |owner| && owner[u] == t)
  }

  lemma Waiting(p: Params, vs: seq<seq<Bucket>>, d: Dsu, f: Graph, threads: nat, owner: seq<nat>, s: State)
    requires ZeroFrom(p, vs, d, f, threads, s) && Shares(owner, |vs|, threads) && !Over(s)
    ensures exists t: nat :: t < threads && CanGo(owner, s, t)
  {
    if s.todo != {} {
      var u :| u in s.todo;
      assert CanGo(owner, s, owner[u]);
    } else {
      var t: nat :| t < |s.sys.sups| && !s.sys.sups[t].Idle?;
      assert CanGo(owner, s, t);
    }
  }

  /** An idle thread starts its next iteration. */
  method TakeNext(p: Params, vs: seq<seq<Bucket>>, ghost d: Dsu, ghost f: Graph, threads: nat, owner: seq<nat>, s: State, t: nat)
    returns (r: State)
    requires ZeroFrom(p, vs, d, f, threads, s) && Shares(owner, |vs|, threads) && CanGo(owner, s, t) && s.sys.sups[t].Idle?
    requires Runs.Reaches(Steps(p, vs, owner), StartState(|vs|, d, f, threads), s)
    ensures ZeroFrom(p, vs, d, f, threads, r) && |r.todo| < |s.todo|
    ensures Runs.Reaches(Steps(p, vs, owner), StartState(|vs|, d, f, threads), r)
  {
    var v := NextOf(owner, s.todo, t, 0);
    SampleKeeps(p, vs, f, s, t, v);
    r := SampleVertex(p, vs, s, t, v);
    assert Moves(p, vs, owner, s, t, v, Choice(0, false), r);
    Reached(p, vs, owner, StartState(|vs|, d, f, threads), s, t, v, Choice(0, false), r);
  }

  /** One atomic step of a thread with a sample in hand. */
  method WorkOn(p: Params, vs: seq<seq<Bucket>>, ghost d: Dsu, ghost f: Graph, threads: nat, owner: seq<nat>, s: State, t: nat,
                ch: Choice)
    returns (r: State)
    requires ZeroFrom(p, vs, d, f, threads, s) && t < threads && !s.sys.sups[t].Idle?
    requires Runs.Reaches(Steps(p, vs, owner), StartState(|vs|, d, f, threads), s)
    ensures ZeroFrom(p, vs, d, f, threads, r) && r.todo == s.todo
    ensures !ch.spurious ==> Total(S.SupMeasures(r.sys, f)) < Total(S.SupMeasures(s.sys, f))
    ensures Runs.Reaches(Steps(p, vs, owner), StartState(|vs|, d, f, threads), r)
  {
    WorkKeeps(p, vs, f, s, t, ch);
    EvolvesTrans(d, s.sys.d, Work(f, s, t, ch).sys.d);
    r := s.(sys := S.Advance(s.sys, t, ch));
    assert Moves(p, vs, owner, s, t, 0, ch, r);
    Reached(p, vs, owner, StartState(|vs|, d, f, threads), s, t, 0, ch, r);
  }
}
