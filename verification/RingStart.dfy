// Round 0 on a ring: a schedule that hangs six of its vertices into one long chain, and in
// the ring of twelve the other six into another (src/cc_sketch_alg.cpp, run_round_zero).

module RingStart {
  import opened Counting
  import opened Pairing
  import opened Graphs
  import opened Buckets
  import opened DsuSpec
  import opened DsuFindRace
  import opened SketchSpec
  import opened RoundSpec
  import opened Rings
  import opened CalmMerge
  import opened LoneIterations
  import S = Supernode
  import Z = RoundZero

  /** Below which vertex of the ring the i-th ends up; the tops of the chains stay roots. */
  function Up(len: nat, i: nat): nat {
    if i < 5 then i + 1 else if len == 12 && 7 <= i <= 11 then i - 1 else i
  }

  function Level(len: nat, i: nat): nat {
    if i <= 5 then i else if len == 12 && i <= 11 then 11 - i else 0
  }

  /** When the i-th vertex has its turn: both chains grow in turn, each from its lower end. */
  function Time(len: nat, i: nat): (j: nat)
    ensures (len == 8 || len == 12) && i < len ==> j < len
  {
    if len == 12 && i <= 11 then if i <= 5 then 2 * i else 2 * (11 - i) + 1 else i
  }

  function AtTime(len: nat, j: nat): (i: nat)
    requires (len == 8 || len == 12) && j < len
    ensures i < len && Time(len, i) == j
  {
    if len == 12 then if j % 2 == 0 then j / 2 else 11 - j / 2 else j
  }

  function PlaceIn(at: seq<nat>, x: nat, i: nat): (k: nat)
    requires i <= |at|
    ensures i <= k <= |at| && (k < |at| ==> at[k] == x)
    decreases |at| - i
  {
    if i == |at| || at[i] == x then i else PlaceIn(at, x, i + 1)
  }

  lemma {:induction false} PlaceFound(at: seq<nat>, k: nat, i: nat)
    requires Distinct(at) && i <= k < |at|
    ensures PlaceIn(at, at[k], i) == k
    decreases k - i
  {
    if at[i] != at[k] {
      PlaceFound(at, k, i + 1);
    }
  }

  /** Priorities that rise along the chains. */
  function RingPrio(c: Ring): (prio: seq<nat>)
    ensures |prio| == c.n
  {
    seq(c.n, x requires 0 <= x => Level(|c.at|, PlaceIn(c.at, x, 0)))
  }

  lemma PrioAt(c: Ring, i: nat)
    requires c.Valid() && i < |c.at|
    ensures RingPrio(c)[c.at[i]] == Level(|c.at|, i)
  {
    PlaceFound(c.at, i, 0);
  }

  /** Where the i-th vertex of the ring hangs after j turns. */
  function Parent(c: Ring, i: nat, j: nat): nat
    requires c.Valid() && i < |c.at|
  {
    if Time(|c.at|, i) < j then c.at[Up(|c.at|, i)] else c.at[i]
  }

  /** The union-find after j turns. */
  ghost predicate Grown(c: Ring, d: Dsu, j: nat)
    requires c.Valid()
  {
    && d.Valid() && d.prio == RingPrio(c)
    && (forall i: nat | i < |c.at| :: d.parent[c.at[i]] == Parent(c, i, j))
    && (forall x: nat | x < c.n && x !in c.at :: d.parent[x] == x)
  }

  lemma StartGrown(c: Ring)
    requires c.Valid()
    ensures Grown(c, Singletons(RingPrio(c)), 0)
  {
  }

  /** Two roots, one above the other. */
  lemma JointLinks(d: Dsu, x: nat, y: nat, lo: nat, hi: nat)
    requires d.Valid() && x < d.Size() && y < d.Size() && ((x == lo && y == hi) || (x == hi && y == lo))
    requires d.IsRoot(x) && d.IsRoot(y) && x != y && d.Above(hi, lo)
    ensures Joint(d, x, y) == d.(parent := d.parent[lo := hi])
  {
  }

  lemma LinkGrows(c: Ring, d: Dsu, j: nat, i: nat)
    requires c.Valid() && Grown(c, d, j) && i < |c.at| && Time(|c.at|, i) == j && Up(|c.at|, i) != i
    ensures Up(|c.at|, i) < |c.at| && d.IsRoot(c.at[i]) && d.IsRoot(c.at[Up(|c.at|, i)])
    ensures d.Above(c.at[Up(|c.at|, i)], c.at[i])
  {
    var u := Up(|c.at|, i);
    PrioAt(c, i);
    PrioAt(c, u);
    assert d.parent[c.at[i]] == Parent(c, i, j);
    assert d.parent[c.at[u]] == Parent(c, u, j);
  }

  lemma TimesDiffer(len: nat, i: nat, k: nat)
    requires (len == 8 || len == 12) && i < len && k < len && Time(len, i) == Time(len, k)
    ensures i == k
  {
  }

  lemma AfterLink(c: Ring, d: Dsu, j: nat, i: nat, e: Dsu)
    requires c.Valid() && Grown(c, d, j) && i < |c.at| && Time(|c.at|, i) == j && e.Valid() && e.prio == d.prio
    requires Up(|c.at|, i) < |c.at| && e.parent == d.parent[c.at[i] := c.at[Up(|c.at|, i)]]
    ensures Grown(c, e, j + 1)
  {
    forall k: nat | k < |c.at|
      ensures e.parent[c.at[k]] == Parent(c, k, j + 1)
    {
      assert d.parent[c.at[k]] == Parent(c, k, j);
      if k != i {
        if Time(|c.at|, k) == j {
          TimesDiffer(|c.at|, i, k);
        }
      }
    }
    assert c.at[i] in c.at;
  }

  lemma LinkedValid(d: Dsu, lo: nat, hi: nat)
    requires d.Valid() && lo < d.Size() && hi < d.Size() && d.Above(hi, lo)
    ensures d.(parent := d.parent[lo := hi]).Valid()
  {
  }

  /** The side whose ends are i and the vertex it hangs below. */
  function UpSide(len: nat, i: nat): nat {
    if i < 5 then i else i - 1
  }

  lemma LinkTurn(c: Ring, d: Dsu, j: nat, i: nat)
    requires c.Valid() && Grown(c, d, j) && i < |c.at| && Time(|c.at|, i) == j && Up(|c.at|, i) != i
    ensures ArcSays(c, 0, i, i + 1) == GoodSample(IdAt(c, UpSide(|c.at|, i)))
    ensures Plain(d, ArcSays(c, 0, i, i + 1)) && Grown(c, Effect(d, ArcSays(c, 0, i, i + 1)), j + 1)
  {
    var u, e := Up(|c.at|, i), c.Side(UpSide(|c.at|, i));
    UpSays(c, i);
    UpEnds(c, i);
    LinkGrows(c, d, j, i);
    JointLinks(d, e.src, e.dst, c.at[i], c.at[u]);
    LinkedValid(d, c.at[i], c.at[u]);
    AfterLink(c, d, j, i, Joint(d, e.src, e.dst));
  }

  lemma UpSays(c: Ring, i: nat)
    requires c.Valid() && i < |c.at| && Up(|c.at|, i) != i
    ensures UpSide(|c.at|, i) < |c.at| && ArcSays(c, 0, i, i + 1) == GoodSample(IdAt(c, UpSide(|c.at|, i)))
    ensures InvConcatPairing(IdAt(c, UpSide(|c.at|, i))) == c.Side(UpSide(|c.at|, i))
  {
    SideDecodes(c, UpSide(|c.at|, i));
  }

  lemma UpEnds(c: Ring, i: nat)
    requires c.Valid() && i < |c.at| && Up(|c.at|, i) != i
    ensures var u, e := Up(|c.at|, i), c.Side(UpSide(|c.at|, i));
      u < |c.at| && u != i && c.at[u] != c.at[i] &&
      ((e.src == c.at[i] && e.dst == c.at[u]) || (e.src == c.at[u] && e.dst == c.at[i]))
  {
  }

  /** The top of a chain samples the edge to the vertex below it, which is linked already. */
  lemma TopTurn(c: Ring, d: Dsu, j: nat, i: nat)
    requires c.Valid() && Grown(c, d, j) && i < |c.at| && Time(|c.at|, i) == j && (i == 5 || (|c.at| == 12 && i == 6))
    ensures ArcSays(c, 0, i, i + 1) == GoodSample(IdAt(c, if i == 5 then 4 else 6))
    ensures Plain(d, ArcSays(c, 0, i, i + 1)) && Grown(c, Effect(d, ArcSays(c, 0, i, i + 1)), j + 1)
  {
    var k, b := if i == 5 then 4 else 6, if i == 5 then 4 else 7;
    SideDecodes(c, k);
    var e := c.Side(k);
    assert (e.src == c.at[i] && e.dst == c.at[b]) || (e.src == c.at[b] && e.dst == c.at[i]);
    assert d.parent[c.at[b]] == Parent(c, b, j) && d.parent[c.at[i]] == Parent(c, i, j);
    assert Joint(d, e.src, e.dst) == d;
    AfterLink(c, d, j, i, d);
  }

  /** Each turn does what the picture says. */
  lemma OneTurn(c: Ring, d: Dsu, j: nat, i: nat)
    requires c.Valid() && Grown(c, d, j) && i < |c.at| && Time(|c.at|, i) == j
    ensures Plain(d, ArcSays(c, 0, i, i + 1)) && Grown(c, Effect(d, ArcSays(c, 0, i, i + 1)), j + 1)
  {
    if Up(|c.at|, i) != i {
      LinkTurn(c, d, j, i);
    } else if i == 5 || |c.at| == 12 {
      TopTurn(c, d, j, i);
    } else {
      assert ArcSays(c, 0, i, i + 1) == FailSample;
      AfterLink(c, d, j, i, d);
    }
  }

  // The run

  /** Each thread's vertices of the ring have their turns in ascending order. */
  predicate Consistent(c: Ring, owner: seq<nat>)
    requires c.Valid() && |owner| == c.n
  {
    forall i: nat, k: nat | i < |c.at| && k < |c.at| && owner[c.at[i]] == owner[c.at[k]] && Time(|c.at|, i) < Time(|c.at|, k) ::
      c.at[i] < c.at[k]
  }

  ghost predicate OnRing(c: Ring, g: Given) {
    && g.Valid() && Hashed(c, g.p, g.vs) && g.p.numSamples > 0 && g.d == Singletons(RingPrio(c)) && Consistent(c, g.owner)
  }

  lemma SaidRing(c: Ring, g: Given, i: nat)
    requires OnRing(c, g) && i < |c.at|
    ensures Said(g, c.at[i]) == ArcSays(c, 0, i, i + 1)
  {
    Z.LoneGroup(g.p, g.vs, c.at[i]);
    LoneVertex(g, c.at[i]);
    ArcAnswer(c, g.p, g.vs, {c.at[i]}, i, i + 1, 0);
  }

  lemma LoneVertex(g: Given, v: nat)
    requires v < |g.vs|
    ensures Group(Z.Identity(|g.vs|), v) == {v}
  {
    assert v in Range(0, |g.vs|) && Z.Identity(|g.vs|)[v].root == v;
  }

  lemma SaidOff(c: Ring, g: Given, v: nat)
    requires OnRing(c, g) && v < c.n && v !in c.at
    ensures Idles(g, v)
  {
    Z.LoneGroup(g.p, g.vs, v);
    LoneVertex(g, v);
    OffAnswer(c, g.p, g.vs, {v}, 0);
  }

  /** Of the ring, exactly the vertices whose turn has not come are left. */
  ghost predicate Turned(c: Ring, todo: set<nat>, j: nat)
    requires c.Valid()
  {
    forall i: nat | i < |c.at| :: c.at[i] in todo <==> Time(|c.at|, i) >= j
  }

  ghost predicate Grows(c: Ring, g: Given, s: Z.State, j: nat) {
    OnRing(c, g) && Rests(g, s) && Grown(c, s.sys.d, j) && Turned(c, s.todo, j)
  }

  lemma NoneBefore(c: Ring, g: Given, s: Z.State, j: nat, i: nat, u: nat)
    requires Grows(c, g, s, j) && i < |c.at| && Time(|c.at|, i) == j
    requires u in s.todo && u < c.at[i] && g.owner[u] == g.owner[c.at[i]]
    ensures u !in c.at && Idles(g, u)
  {
    if u in c.at {
      var k: nat :| k < |c.at| && c.at[k] == u;
      if Time(|c.at|, k) == j {
        TimesDiffer(|c.at|, i, k);
      }
    }
    SaidOff(c, g, u);
  }

  lemma NextTurn(c: Ring, g: Given, s: Z.State, j: nat) returns (r: Z.State)
    requires Grows(c, g, s, j) && j < |c.at|
    ensures Grows(c, g, r, j + 1)
  {
    var i := AtTime(|c.at|, j);
    var v := c.at[i];
    forall u | u in s.todo && u < v && g.owner[u] == g.owner[v]
      ensures Idles(g, u) && u !in c.at
    {
      NoneBefore(c, g, s, j, i, u);
    }
    var m := CatchUp(g, s, v);
    StillTurned(c, s.todo, m.todo, j);
    SaidRing(c, g, i);
    OneTurn(c, m.sys.d, j, i);
    r := Iterate(g, m, v);
    TurnTaken(c, m.todo, j, i);
  }

  lemma StillTurned(c: Ring, a: set<nat>, b: set<nat>, j: nat)
    requires c.Valid() && Turned(c, a, j) && b <= a && forall u | u in a && u !in b :: u !in c.at
    ensures Turned(c, b, j)
  {
    forall i: nat | i < |c.at|
      ensures c.at[i] in b <==> Time(|c.at|, i) >= j
    {
      assert c.at[i] in c.at;
    }
  }

  lemma TurnTaken(c: Ring, todo: set<nat>, j: nat, i: nat)
    requires c.Valid() && Turned(c, todo, j) && i < |c.at| && Time(|c.at|, i) == j
    ensures Turned(c, todo - {c.at[i]}, j + 1)
  {
    forall k: nat | k < |c.at|
      ensures c.at[k] in todo - {c.at[i]} <==> Time(|c.at|, k) >= j + 1
    {
      if k != i && Time(|c.at|, k) == j {
        TimesDiffer(|c.at|, i, k);
      }
    }
  }

  /** A run of round 0 that grows the chains. */
  lemma GrownRun(c: Ring, g: Given) returns (z: Z.State)
    requires OnRing(c, g)
    ensures Z.Result(g.p, g.vs, g.d, {}, g.threads, g.owner, z) && Grown(c, z.sys.d, |c.at|)
  {
    StartRests(g);
    StartGrown(c);
    z := g.Start();
    for j := 0 to |c.at|
      invariant Grows(c, g, z, j)
    {
      z := NextTurn(c, g, z, j);
    }
    forall u | u in z.todo
      ensures Idles(g, u)
    {
      LeftOver(c, g, z, u);
    }
    z := RunOut(g, z);
  }

  lemma LeftOver(c: Ring, g: Given, s: Z.State, u: nat)
    requires Grows(c, g, s, |c.at|) && u in s.todo
    ensures Idles(g, u)
  {
    assert forall i: nat | i < |c.at| :: c.at[i] !in s.todo;
    SaidOff(c, g, u);
  }
}
