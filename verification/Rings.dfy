// A graph that is one ring of eight or twelve vertices, hashed so that every sample of an
// arc of the ring is known (src/sketch.cpp, src/cc_sketch_alg.cpp).

module Rings {
  import opened Counting
  import opened Pairing
  import opened Graphs
  import opened Buckets
  import opened DsuFindRace
  import opened SketchSpec
  import opened SampleCount
  import opened RoundSpec
  import opened Cuts
  import opened Decoys

  /** at lists the vertices along the ring; the other vertices below n have no edges. */
  datatype Ring = Ring(n: nat, at: seq<nat>) {

    predicate Valid() {
      && n <= NODE_LIMIT && (|at| == 8 || |at| == 12) && Distinct(at)
      && forall i: nat | i < |at| :: at[i] < n
    }

    function Next(i: nat): nat {
      if i + 1 < |at| then i + 1 else 0
    }

    function Prev(i: nat): nat
      requires |at| > 0
    {
      if i > 0 then i - 1 else |at| - 1
    }

    /** The edge from the i-th vertex to the next. */
    function Side(i: nat): Edge
      requires i < |at|
    {
      Norm(Edge(at[i], at[Next(i)]))
    }

    function Net(): Graph {
      set i: nat | i < |at| :: Side(i)
    }
  }

  lemma NetSimple(c: Ring)
    requires c.Valid()
    ensures Simple(c.Net(), c.n) && Simple(c.Net(), NODE_LIMIT)
  {
    forall e | e in c.Net()
      ensures e.src < e.dst < c.n
    {
      var i: nat :| i < |c.at| && e == c.Side(i);
      assert c.at[i] != c.at[c.Next(i)];
    }
  }

  lemma SidesDiffer(c: Ring, i: nat, k: nat)
    requires c.Valid() && i < |c.at| && k < |c.at| && c.Side(i) == c.Side(k)
    ensures i == k
  {
    var a, b, x, y := c.at[i], c.at[c.Next(i)], c.at[k], c.at[c.Next(k)];
    assert (a == x && b == y) || (a == y && b == x);
  }

  // Arcs

  /** Of the ring, s has exactly the vertices number a to b - 1. */
  predicate Arc(c: Ring, s: set<nat>, a: nat, b: nat) {
    a < b <= |c.at| && b - a < |c.at| && forall i: nat | i < |c.at| :: c.at[i] in s <==> a <= i < b
  }

  predicate OffRing(c: Ring, s: set<nat>) {
    forall i: nat | i < |c.at| :: c.at[i] !in s
  }

  lemma SideCrosses(c: Ring, s: set<nat>, i: nat)
    requires c.Valid() && i < |c.at|
    ensures c.Side(i) in Cut(c.Net(), s) <==> (c.at[i] in s) != (c.at[c.Next(i)] in s)
  {
    assert c.Side(i) in c.Net();
  }

  /** Two sides leave an arc. */
  lemma ArcCut(c: Ring, s: set<nat>, a: nat, b: nat)
    requires c.Valid() && Arc(c, s, a, b)
    ensures Cut(c.Net(), s) == {c.Side(c.Prev(a)), c.Side(b - 1)} && c.Side(c.Prev(a)) != c.Side(b - 1)
  {
    var x, y := c.Prev(a), b - 1;
    forall i: nat | i < |c.at|
      ensures c.Side(i) in Cut(c.Net(), s) <==> i == x || i == y
    {
      SideCrosses(c, s, i);
    }
    forall e | e in Cut(c.Net(), s)
      ensures e == c.Side(x) || e == c.Side(y)
    {
      var i: nat :| i < |c.at| && e == c.Side(i);
    }
    if c.Side(x) == c.Side(y) {
      SidesDiffer(c, x, y);
    }
  }

  lemma OffCut(c: Ring, s: set<nat>)
    requires c.Valid() && OffRing(c, s)
    ensures Cut(c.Net(), s) == {}
  {
    forall e | e in c.Net()
      ensures e !in Cut(c.Net(), s)
    {
      var i: nat :| i < |c.at| && e == c.Side(i);
      SideCrosses(c, s, i);
    }
  }

  // Ranks

  /**
   * Along each chain of the ring the sides rank down towards the middle, and the sides that
   * join the chains last. In the ring of eight the side between the two single vertices is
   * last in the first sample and first in all others.
   */
  function SideRank(len: nat, first: bool, i: nat): (r: nat)
    ensures r <= 5
  {
    if i < 5 then 4 - i
    else if len == 12 && 6 <= i <= 10 then i - 6
    else if len == 8 && i == 6 && !first then 0
    else 5
  }

  function IdAt(c: Ring, i: nat): nat
    requires c.Valid() && i < |c.at|
  {
    var e := c.Side(i);
    ConcatPairing(e.src, e.dst)
  }

  /** Which side an index stands for; any other number counts as a last one. */
  function SideOf(c: Ring, x: nat, i: nat): nat
    requires c.Valid() && i <= |c.at|
    decreases |c.at| - i
  {
    if i == |c.at| || IdAt(c, i) == x then i else SideOf(c, x, i + 1)
  }

  lemma IdsDiffer(c: Ring, i: nat, k: nat)
    requires c.Valid() && i < |c.at| && k < |c.at| && IdAt(c, i) == IdAt(c, k)
    ensures i == k
  {
    var e, h := c.Side(i), c.Side(k);
    NormTwice(Edge(c.at[i], c.at[c.Next(i)]));
    NormTwice(Edge(c.at[k], c.at[c.Next(k)]));
    PairingInjective(e.src, e.dst, h.src, h.dst);
    SidesDiffer(c, i, k);
  }

  lemma NormTwice(e: Edge)
    ensures Norm(Norm(e)) == Norm(e)
  {
  }

  lemma {:induction false} SideFound(c: Ring, k: nat, i: nat)
    requires c.Valid() && i <= k < |c.at|
    ensures SideOf(c, IdAt(c, k), i) == k
    decreases k - i
  {
    if IdAt(c, i) == IdAt(c, k) {
      IdsDiffer(c, i, k);
    } else {
      SideFound(c, k, i + 1);
    }
  }

  function RankOn(c: Ring): Ranking
    requires c.Valid()
  {
    (x: nat, first: bool) => if c.Valid() then SideRank(|c.at|, first, SideOf(c, x, 0)) else 0
  }

  lemma RankOnSide(c: Ring, i: nat, first: bool)
    requires c.Valid() && i < |c.at|
    ensures Ranked(RankOn(c)) && RankOn(c)(IdAt(c, i), first) == SideRank(|c.at|, first, i)
  {
    forall x: nat, f: bool
      ensures RankOn(c)(x, f) <= 5
    {
    }
    SideFound(c, i, 0);
  }

  /** The sketches' parameters under these hashes. */
  function RingParams(c: Ring, samples: nat, bkts: nat, l0: bool): (p: Params)
    requires c.Valid() && bkts > 0
    ensures p.Valid() && p.numSamples == samples && p.bkts == bkts && p.l0 == l0 && p.cols == DefaultCols(l0)
  {
    DecoyParams(samples, bkts, l0, RankOn(c))
  }

  /** The sketches once every edge has reached both its ends. */
  ghost function RingSketches(c: Ring, p: Params): (vs: seq<seq<Bucket>>)
    requires c.Valid() && p.Valid()
    ensures |vs| == c.n && Flushed(p, c.Net(), vs)
  {
    NetSimple(c);
    seq(c.n, v requires 0 <= v < c.n =>
      CutSmall(c.Net(), c.n, {}, v);
      SketchOf(p, Ids(Incident(c.Net(), v))))
  }

  // Samples

  lemma TwoIds(c: Ring, i: nat, k: nat)
    requires c.Valid() && i < |c.at| && k < |c.at| && c.Side(i) != c.Side(k)
    ensures Simple({c.Side(i), c.Side(k)}, NODE_LIMIT) && Ids({c.Side(i), c.Side(k)}) == {IdAt(c, i), IdAt(c, k)}
    ensures IdAt(c, i) != IdAt(c, k)
  {
    NetSimple(c);
    assert c.Side(i) in c.Net() && c.Side(k) in c.Net();
    var g := {c.Side(i), c.Side(k)};
    forall x | x in {IdAt(c, i), IdAt(c, k)}
      ensures x in Ids(g)
    {
      assert c.Side(i) in g && c.Side(k) in g;
    }
    if IdAt(c, i) == IdAt(c, k) {
      IdsDiffer(c, i, k);
    }
  }

  /** What sample k of an arc answers: the side that ranks lower, or nothing if they tie. */
  function ArcSays(c: Ring, k: nat, a: nat, b: nat): Outcome
    requires c.Valid() && a < b <= |c.at|
  {
    var i, j := c.Prev(a), b - 1;
    var r, q := SideRank(|c.at|, k == 0, i), SideRank(|c.at|, k == 0, j);
    if r < q then GoodSample(IdAt(c, i)) else if q < r then GoodSample(IdAt(c, j)) else FailSample
  }

  lemma PairSays(c: Ring, samples: nat, bkts: nat, l0: bool, k: nat, i: nat, j: nat)
    requires c.Valid() && bkts > 5 && k < samples && i < |c.at| && j < |c.at| && IdAt(c, i) != IdAt(c, j)
    ensures var p := RingParams(c, samples, bkts, l0);
      var r, q := SideRank(|c.at|, k == 0, i), SideRank(|c.at|, k == 0, j);
      Sampled(p, SketchVal(SketchOf(p, {IdAt(c, i), IdAt(c, j)}), k)) ==
        if r < q then GoodSample(IdAt(c, i)) else if q < r then GoodSample(IdAt(c, j)) else FailSample
  {
    var x, y := IdAt(c, i), IdAt(c, j);
    RankOnSide(c, i, k == 0);
    RankOnSide(c, j, k == 0);
    if Prefers(RankOn(c), k, x, y) {
      PreferredSample(samples, bkts, l0, RankOn(c), x, y, k);
    } else if Prefers(RankOn(c), k, y, x) {
      PreferredSample(samples, bkts, l0, RankOn(c), y, x, k);
      assert {x, y} == {y, x};
    } else {
      TieFails(samples, bkts, l0, RankOn(c), x, y, k);
    }
  }

  /** Sketches of the ring under its hashes. */
  ghost predicate Hashed(c: Ring, p: Params, vs: seq<seq<Bucket>>) {
    && c.Valid() && p.Valid() && p.bkts > 5 && p == RingParams(c, p.numSamples, p.bkts, p.l0)
    && Flushed(p, c.Net(), vs) && |vs| == c.n
  }

  /** The sample of an arc is honest, and known. */
  lemma ArcAnswer(c: Ring, p: Params, vs: seq<seq<Bucket>>, s: set<nat>, a: nat, b: nat, k: nat)
    requires Hashed(c, p, vs) && s <= Range(0, c.n) && Arc(c, s, a, b) && k < p.numSamples
    ensures Simple(c.Net(), NODE_LIMIT) && SoundCut(p, c.Net(), s)
    ensures Answer(p, vs, k, s) == ArcSays(c, k, a, b)
  {
    NetSimple(c);
    ArcIds(c, s, a, b);
    CutSketch(p, c.Net(), vs, s);
    PairSound(c, p, c.Prev(a), b - 1);
    PairSays(c, p.numSamples, p.bkts, p.l0, k, c.Prev(a), b - 1);
  }

  lemma ArcIds(c: Ring, s: set<nat>, a: nat, b: nat)
    requires c.Valid() && Arc(c, s, a, b)
    ensures Simple(Cut(c.Net(), s), NODE_LIMIT) && Ids(Cut(c.Net(), s)) == {IdAt(c, c.Prev(a)), IdAt(c, b - 1)}
    ensures IdAt(c, c.Prev(a)) != IdAt(c, b - 1)
  {
    ArcCut(c, s, a, b);
    TwoIds(c, c.Prev(a), b - 1);
  }

  lemma PairSound(c: Ring, p: Params, i: nat, j: nat)
    requires c.Valid() && p.bkts > 5 && p == RingParams(c, p.numSamples, p.bkts, p.l0)
    requires i < |c.at| && j < |c.at| && IdAt(c, i) != IdAt(c, j)
    ensures Sound(p, {IdAt(c, i), IdAt(c, j)})
  {
    RankOnSide(c, 0, true);
    FewSound(p.numSamples, p.bkts, p.l0, RankOn(c), {IdAt(c, i), IdAt(c, j)});
  }

  /** The sample of a set off the ring finds nothing. */
  lemma OffAnswer(c: Ring, p: Params, vs: seq<seq<Bucket>>, s: set<nat>, k: nat)
    requires Hashed(c, p, vs) && s <= Range(0, c.n) && OffRing(c, s) && k < p.numSamples
    ensures Simple(c.Net(), NODE_LIMIT) && SoundCut(p, c.Net(), s)
    ensures Answer(p, vs, k, s) == ZeroSample
  {
    NetSimple(c);
    OffCut(c, s);
    CutSketch(p, c.Net(), vs, s);
    assert Ids({}) == {};
    RankOnSide(c, 0, true);
    FewSound(p.numSamples, p.bkts, p.l0, RankOn(c), {});
    SampleOfOneOrNone(p, 1, k);
  }

  /** A good answer decodes to its side. */
  lemma SideDecodes(c: Ring, i: nat)
    requires c.Valid() && i < |c.at|
    ensures InvConcatPairing(IdAt(c, i)) == c.Side(i)
  {
    PairingRoundTrip(c.Side(i).src, c.Side(i).dst);
    NormTwice(Edge(c.at[i], c.at[c.Next(i)]));
  }
}
