// The samples taken during a round, and how the shared variables reflect their outcomes.

module SampleLog {
  import opened Pairing
  import opened Graphs
  import opened DsuSpec
  import opened DsuConcurrent
  import opened SketchSpec
  import S = Supernode

  /** One sample taken: the root it was taken for and its answer. */
  datatype Entry = Entry(root: nat, outcome: Outcome)

  ghost predicate Logged(log: seq<Entry>, r: nat) {
    exists a: nat :: a < |log| && log[a].root == r
  }

  predicate OncePerRoot(log: seq<Entry>) {
    forall a: nat, b: nat | a < b < |log| :: log[a].root != log[b].root
  }

  lemma LoggedSnoc(log: seq<Entry>, e: Entry, r: nat)
    ensures Logged(log + [e], r) <==> Logged(log, r) || e.root == r
  {
    var log' := log + [e];
    if Logged(log, r) {
      var a: nat :| a < |log| && log[a].root == r;
      assert log'[a].root == r;
    }
    assert log'[|log|] == e;
  }

  lemma OnceMore(log: seq<Entry>, e: Entry)
    requires OncePerRoot(log) && !Logged(log, e.root)
    ensures OncePerRoot(log + [e])
  {
  }

  ghost predicate Has(log: seq<Entry>, o: Outcome) {
    exists a: nat :: a < |log| && log[a].outcome == o
  }

  ghost predicate Caused(log: seq<Entry>, e: Edge) {
    exists a: nat :: a < |log| && log[a].outcome.GoodSample? && InvConcatPairing(log[a].outcome.idx) == e
  }

  predicate Inside(e: Edge, n: nat) {
    e.src < n && e.dst < n
  }

  /** The outcome has had its effect on the shared variables. */
  ghost predicate Noted(s: S.Sys, raised: bool, o: Outcome) {
    match o
    case ZeroSample => true
    case OutOfSamples => raised
    case FailSample => s.failed
    case GoodSample(idx) =>
      var e := InvConcatPairing(idx);
      if Inside(e, s.d.Size()) then e in s.asked else s.wild
  }

  /** The shared variables reflect exactly the outcomes in the log. */
  ghost predicate Record(s: S.Sys, raised: bool, log: seq<Entry>) {
    && (forall a: nat | a < |log| :: Noted(s, raised, log[a].outcome))
    && (forall e | e in s.asked :: Caused(log, e))
    && (s.failed ==> Has(log, FailSample))
    && (raised ==> Has(log, OutOfSamples))
    && (s.wild ==> exists e :: Caused(log, e) && !Inside(e, s.d.Size()))
  }

  lemma RecordStart(d: Dsu, forest: Graph, threads: nat)
    ensures Record(S.StartSys(d, forest, threads), false, [])
  {
  }

  lemma CausedSnoc(log: seq<Entry>, x: Entry, e: Edge)
    requires Caused(log, e) || (x.outcome.GoodSample? && InvConcatPairing(x.outcome.idx) == e)
    ensures Caused(log + [x], e)
  {
    if Caused(log, e) {
      var a: nat :| a < |log| && log[a].outcome.GoodSample? && InvConcatPairing(log[a].outcome.idx) == e;
      assert (log + [x])[a] == log[a];
    } else {
      assert (log + [x])[|log|] == x;
    }
  }

  lemma HasSnoc(log: seq<Entry>, x: Entry, o: Outcome)
    requires Has(log, o) || x.outcome == o
    ensures Has(log + [x], o)
  {
    if Has(log, o) {
      var a: nat :| a < |log| && log[a].outcome == o;
      assert (log + [x])[a] == log[a];
    } else {
      assert (log + [x])[|log|] == x;
    }
  }

  /** Taking a sample adds exactly its own effect. */
  lemma RecordBegin(s: S.Sys, raised: bool, log: seq<Entry>, t: nat, x: Entry)
    requires Record(s, raised, log) && t < |s.sups|
    ensures Record(S.Begin(s, t, x.outcome), raised || x.outcome.OutOfSamples?, log + [x])
  {
    var r, raised', log' := S.Begin(s, t, x.outcome), raised || x.outcome.OutOfSamples?, log + [x];
    forall a: nat | a < |log'|
      ensures Noted(r, raised', log'[a].outcome)
    {
      if a < |log| {
        assert Noted(s, raised, log[a].outcome);
      }
    }
    forall e | e in r.asked
      ensures Caused(log', e)
    {
      CausedSnoc(log, x, e);
    }
    if r.failed {
      HasSnoc(log, x, FailSample);
    }
    if raised' {
      HasSnoc(log, x, OutOfSamples);
    }
    if r.wild {
      RecordWild(s, raised, log, t, x);
    }
  }

  lemma RecordWild(s: S.Sys, raised: bool, log: seq<Entry>, t: nat, x: Entry)
    requires Record(s, raised, log) && t < |s.sups| && S.Begin(s, t, x.outcome).wild
    ensures exists e :: Caused(log + [x], e) && !Inside(e, s.d.Size())
  {
    if s.wild {
      var e :| Caused(log, e) && !Inside(e, s.d.Size());
      CausedSnoc(log, x, e);
    } else {
      CausedSnoc(log, x, InvConcatPairing(x.outcome.idx));
    }
  }

  /** Work on a sample in hand leaves the record as it is. */
  lemma RecordAdvance(s: S.Sys, linked0: Graph, raised: bool, log: seq<Entry>, t: nat, c: Choice)
    requires S.SysInv(s, linked0) && Record(s, raised, log) && t < |s.sups| && !s.sups[t].Idle?
    requires s.sups[t].Merging? ==> MergeInRange(s.d.Size(), s.sups[t].m)
    ensures Record(S.Advance(s, t, c), raised, log)
  {
    S.AdvanceKeeps(s, linked0, t, c);
    var r := S.Advance(s, t, c);
    assert r.d.Size() == s.d.Size() && r.asked == s.asked && r.failed == s.failed && r.wild == s.wild;
    forall a: nat | a < |log|
      ensures Noted(r, raised, log[a].outcome)
    {
      assert Noted(s, raised, log[a].outcome);
    }
  }

  lemma AdvanceSys(f: Graph, sys: S.Sys, raised: bool, log: seq<Entry>, t: nat, ch: Choice)
    requires S.SysInv(sys, f) && Record(sys, raised, log) && t < |sys.sups| && !sys.sups[t].Idle?
    requires sys.sups[t].Merging? ==> MergeInRange(sys.d.Size(), sys.sups[t].m)
    ensures var r := S.Advance(sys, t, ch);
      && S.SysInv(r, f) && Evolves(sys.d, r.d) && Record(r, raised, log) && |r.sups| == |sys.sups|
      && (forall u: nat | u < |sys.sups| && u != t :: r.sups[u] == sys.sups[u])
  {
    S.AdvanceKeeps(sys, f, t, ch);
    RecordAdvance(sys, f, raised, log, t, ch);
  }
}
