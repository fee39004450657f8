// Runs of round 0 in which one iteration is finished before the next begins, whichever
// threads they belong to (src/cc_sketch_alg.cpp, run_round_zero).

module LoneIterations {
  import opened Counting
  import opened Buckets
  import opened Pairing
  import opened Graphs
  import opened DsuSpec
  import opened DsuConcurrent
  import opened SketchSpec
  import opened RoundZero
  import opened CalmMerge
  import Runs
  import S = Supernode

  /** What a run of round 0 is given: sketches, the union-find, and who runs which iteration. */
  datatype Given = Given(p: Params, vs: seq<seq<Bucket>>, d: Dsu, threads: nat, owner: seq<nat>) {
    ghost predicate Valid() {
      && p.Valid() && (forall v: nat | v < |vs| :: |vs[v]| == p.NumBuckets())
      && S.ForestOf(d, {}) && d.Size() == |vs| && Shares(owner, |vs|, threads)
    }

    ghost function Start(): State {
      StartState(|vs|, d, {}, threads)
    }
  }

  /** The run has come to s. */
  ghost predicate At(c: Given, s: State) {
    c.Valid() && ZeroFrom(c.p, c.vs, c.d, {}, c.threads, s) && Runs.Reaches(Steps(c.p, c.vs, c.owner), c.Start(), s)
  }

  /** The run has come to s, and no thread has a sample in hand. */
  ghost predicate Rests(c: Given, s: State) {
    At(c, s) && forall t: nat | t < |s.sys.sups| :: s.sys.sups[t].Idle?
  }

  lemma StartRests(c: Given)
    requires c.Valid()
    ensures Rests(c, c.Start()) && c.Start().todo == Range(0, |c.vs|) && c.Start().sys.d == c.d
  {
    StartInv(c.p, c.vs, c.d, {}, c.threads);
    EvolvesSame(c.d);
    Runs.ReachesItself(Steps(c.p, c.vs, c.owner), c.Start());
  }

  lemma OneMove(c: Given, s: State, t: nat, v: nat, ch: Choice, r: State)
    requires At(c, s) && Moves(c.p, c.vs, c.owner, s, t, v, ch, r)
    ensures At(c, r)
  {
    MoveKeeps(c.p, c.vs, c.d, {}, c.threads, c.owner, s, t, v, ch, r);
    Reached(c.p, c.vs, c.owner, c.Start(), s, t, v, ch, r);
  }

  /** The parents of both ends of e are roots of d. */
  predicate Shallow(d: Dsu, e: Edge) {
    d.Valid() && e.src < d.Size() && e.dst < d.Size() && d.IsRoot(d.parent[e.src]) && d.IsRoot(d.parent[e.dst])
  }

  /** Thread t's own work, from before to after. */
  predicate Midway(s: S.Sys, t: nat, before: Dsu, after: Dsu)
    requires t < |s.sups|
  {
    match s.sups[t]
    case Merging(e, m) => Shallow(before, e) && s.d == before && Calm(before, e.src, e.dst, m) && after == Joint(before, e.src, e.dst)
    case _ => s.d == after
  }

  /** Thread t alone is at work. */
  ghost predicate Works(c: Given, s: State, t: nat, before: Dsu, after: Dsu) {
    && At(c, s) && t < |s.sys.sups| && Midway(s.sys, t, before, after)
    && forall u: nat | u < |s.sys.sups| && u != t :: s.sys.sups[u].Idle?
  }

  lemma MidwayStep(s: S.Sys, t: nat, before: Dsu, after: Dsu)
    requires t < |s.sups| && s.d.Valid() && Midway(s, t, before, after) && !s.sups[t].Idle?
    requires s.sups[t].Merging? ==> !s.sups[t].m.Finished?
    ensures s.sups[t].Merging? ==> MergeInRange(s.d.Size(), s.sups[t].m)
    ensures var r := S.Advance(s, t, Choice(0, false));
      |r.sups| == |s.sups| && r.sups == s.sups[t := r.sups[t]] && Midway(r, t, before, after)
  {
    if s.sups[t].Merging? {
      var e := s.sups[t].e;
      CalmStep(before, e.src, e.dst, s.sups[t].m, Choice(0, false));
    }
  }

  lemma WorksStep(c: Given, s: State, t: nat, before: Dsu, after: Dsu) returns (r: State)
    requires Works(c, s, t, before, after) && !s.sys.sups[t].Idle?
    ensures Works(c, r, t, before, after) && r.todo == s.todo
    ensures S.SysInv(r.sys, {}) && S.SysInv(s.sys, {})
    ensures Total(S.SupMeasures(r.sys, {})) < Total(S.SupMeasures(s.sys, {}))
  {
    assert S.SupInv(s.sys, {}, s.sys.sups[t]);
    MidwayStep(s.sys, t, before, after);
    r := OwnStep(c, s, t);
  }

  /** Thread t takes a step with its sample in hand. */
  lemma OwnStep(c: Given, s: State, t: nat) returns (r: State)
    requires At(c, s) && t < |s.sys.sups| && !s.sys.sups[t].Idle?
    requires s.sys.sups[t].Merging? ==> MergeInRange(s.sys.d.Size(), s.sys.sups[t].m)
    ensures At(c, r) && r == s.(sys := S.Advance(s.sys, t, Choice(0, false)))
    ensures S.SysInv(r.sys, {}) && S.SysInv(s.sys, {})
    ensures Total(S.SupMeasures(r.sys, {})) < Total(S.SupMeasures(s.sys, {}))
  {
    var ch := Choice(0, false);
    WorkKeeps(c.p, c.vs, {}, s, t, ch);
    r := s.(sys := S.Advance(s.sys, t, ch));
    assert Moves(c.p, c.vs, c.owner, s, t, 0, ch, r);
    OneMove(c, s, t, 0, ch, r);
  }

  /** A thread left alone finishes. */
  lemma WorksOff(c: Given, s: State, t: nat, before: Dsu, after: Dsu) returns (r: State)
    requires Works(c, s, t, before, after)
    ensures Rests(c, r) && r.todo == s.todo && r.sys.d == after
  {
    r := s;
    while !r.sys.sups[t].Idle?
      invariant Works(c, r, t, before, after) && r.todo == s.todo
      decreases Total(S.SupMeasures(r.sys, {}))
    {
      r := WorksStep(c, r, t, before, after);
    }
  }

  /** The outcome needs no storing of halved paths. */
  predicate Plain(d: Dsu, o: Outcome) {
    match o
    case GoodSample(idx) => Shallow(d, InvConcatPairing(idx))
    case OutOfSamples => false
    case _ => true
  }

  /** What a plain outcome does to the union-find. */
  function Effect(d: Dsu, o: Outcome): Dsu
    requires Plain(d, o)
  {
    if o.GoodSample? then Joint(d, InvConcatPairing(o.idx).src, InvConcatPairing(o.idx).dst) else d
  }

  lemma MidwayBegins(s: S.Sys, t: nat, o: Outcome)
    requires t < |s.sups| && s.sups[t].Idle? && Plain(s.d, o)
    ensures Midway(S.Begin(s, t, o), t, s.d, Effect(s.d, o)) && |S.Begin(s, t, o).sups| == |s.sups|
    ensures forall u: nat | u < |s.sups| && u != t :: S.Begin(s, t, o).sups[u] == s.sups[u]
  {
  }

  /** What vertex v's sample answers in round 0. */
  function Said(c: Given, v: nat): Outcome
    requires c.p.Valid() && v < |c.vs| && |c.vs[v]| == c.p.NumBuckets()
  {
    Sampled(c.p, SketchVal(c.vs[v], 0))
  }

  /** One whole iteration. */
  lemma Iterate(c: Given, s: State, v: nat) returns (r: State)
    requires Rests(c, s) && v < |c.vs| && Turn(c.owner, s.todo, c.owner[v], v) && Plain(s.sys.d, Said(c, v))
    ensures Rests(c, r) && r.todo == s.todo - {v} && r.sys.d == Effect(s.sys.d, Said(c, v))
  {
    var t := c.owner[v];
    SampleIdx(c.p, c.vs, s, t, v);
    r := SampleVertex(c.p, c.vs, s, t, v);
    assert Moves(c.p, c.vs, c.owner, s, t, v, Choice(0, false), r);
    OneMove(c, s, t, v, Choice(0, false), r);
    MidwayBegins(s.sys, t, Said(c, v));
    r := WorksOff(c, r, t, s.sys.d, Effect(s.sys.d, Said(c, v)));
  }

  /** An iteration that links nothing. */
  predicate Idles(c: Given, v: nat)
    requires c.p.Valid()
  {
    v < |c.vs| && |c.vs[v]| == c.p.NumBuckets() && (Said(c, v).ZeroSample? || Said(c, v).FailSample?)
  }

  /** The thread of v runs the iterations of its share before v, none of which links anything. */
  lemma CatchUp(c: Given, s: State, v: nat) returns (r: State)
    requires Rests(c, s) && v < |c.vs| && v in s.todo
    requires forall u | u in s.todo && u < v && c.owner[u] == c.owner[v] :: Idles(c, u)
    ensures Rests(c, r) && r.sys.d == s.sys.d && Turn(c.owner, r.todo, c.owner[v], v)
    ensures r.todo <= s.todo && forall u | u in s.todo && u !in r.todo :: u < v && c.owner[u] == c.owner[v]
  {
    r := s;
    var t := c.owner[v];
    while NextOf(c.owner, r.todo, t, 0) != v
      invariant Rests(c, r) && r.sys.d == s.sys.d && v in r.todo && r.todo <= s.todo
      invariant forall u | u in s.todo && u !in r.todo :: u < v && c.owner[u] == t
      decreases |r.todo|
    {
      var u := NextOf(c.owner, r.todo, t, 0);
      r := Iterate(c, r, u);
    }
  }

  /** Iterations that link nothing can all be run. */
  lemma RunOut(c: Given, s: State) returns (r: State)
    requires Rests(c, s) && forall u | u in s.todo :: Idles(c, u)
    ensures Rests(c, r) && r.sys.d == s.sys.d && r.todo == {}
  {
    r := s;
    while r.todo != {}
      invariant Rests(c, r) && r.sys.d == s.sys.d && r.todo <= s.todo
      decreases |r.todo|
    {
      var u :| u in r.todo;
      var v := NextOf(c.owner, r.todo, c.owner[u], 0);
      r := Iterate(c, r, v);
    }
  }
}
