// When concurrent find_root calls return roots (include/dsu.h, lines 145-152).
//
// The loop condition reads parent[u] twice. A store by another thread between the two
// reads can make both operands equal although neither is a root.

module DsuFindRace {
  import opened Counting
  import opened DsuSpec
  import opened DsuConcurrent

  /** Concurrent find_root calls, nothing else: call t searches from starts[t]. */
  datatype Finders = Finders(d: Dsu, starts: seq<nat>, finds: seq<Find>)

  ghost predicate Ok(s: Finders) {
    && s.d.Valid() && |s.finds| == |s.starts|
    && forall t: nat | t < |s.starts| :: s.starts[t] < s.d.Size() && FindInv(s.d, s.starts[t], s.finds[t])
  }

  ghost function Begin(d: Dsu, starts: seq<nat>): (s: Finders)
    requires d.Valid() && forall t: nat | t < |starts| :: starts[t] < d.Size()
    ensures Ok(s)
  {
    Finders(d, starts, seq(|starts|, t requires 0 <= t < |starts| => StartFind(starts[t])))
  }

  lemma StepOk(s: Finders, t: nat, pick: nat)
    requires Ok(s) && t < |s.finds| && !s.finds[t].Found?
    ensures var (e, g) := FindStep(s.d, s.finds[t], pick);
      Ok(Finders(e, s.starts, s.finds[t := g])) && SameRoots(s.d, e)
  {
    FindStepKeeps(s.d, s.starts[t], s.finds[t], pick);
    var (e, g) := FindStep(s.d, s.finds[t], pick);
    var finds := s.finds[t := g];
    forall i: nat | i < |s.starts|
      ensures FindInv(e, s.starts[i], finds[i])
    {
      FindInvStable(s.d, e, s.starts[i], s.finds[i]);
    }
  }

  /** Thread who takes one atomic step, if it has one left. */
  ghost function Step(s: Finders, who: nat, pick: nat): (r: Finders)
    requires Ok(s)
    ensures Ok(r) && SameRoots(s.d, r.d) && r.starts == s.starts
  {
    if who < |s.finds| && !s.finds[who].Found? then
      StepOk(s, who, pick);
      var (e, g) := FindStep(s.d, s.finds[who], pick);
      Finders(e, s.starts, s.finds[who := g])
    else s
  }

  /** The state after a schedule: which thread moves, and which pending load it takes. */
  ghost function After(s: Finders, schedule: seq<(nat, nat)>): (r: Finders)
    requires Ok(s)
    ensures Ok(r) && r.starts == s.starts
  {
    if schedule == [] then s else
    var m := |schedule| - 1;
    Step(After(s, schedule[..m]), schedule[m].0, schedule[m].1)
  }

  /** k calls of find_root, from any vertices and under any schedule, only ever return roots. */
  ghost predicate AlwaysRoots(d: Dsu, k: nat)
    requires d.Valid()
  {
    forall starts: seq<nat>, schedule: seq<(nat, nat)> |
      |starts| == k && (forall t: nat | t < k :: starts[t] < d.Size()) ::
      AllRoots(d, After(Begin(d, starts), schedule))
  }

  ghost predicate AllRoots(d: Dsu, s: Finders)
    requires d.Valid()
  {
    |s.finds| == |s.starts| &&
    forall t: nat | t < |s.finds| && s.finds[t].Found? ::
      s.starts[t] < d.Size() && s.finds[t].r == d.Root(s.starts[t])
  }

  /** The same for calls from k different vertices, as when every vertex is looked up once. */
  ghost predicate AlwaysRootsApart(d: Dsu, k: nat)
    requires d.Valid()
  {
    forall starts: seq<nat>, schedule: seq<(nat, nat)> |
      |starts| == k && Distinct(starts) && (forall t: nat | t < k :: starts[t] < d.Size()) ::
      AllRoots(d, After(Begin(d, starts), schedule))
  }

  /** Some schedule of calls from these vertices returns something else than a root. */
  ghost predicate Fails(d: Dsu, starts: seq<nat>)
    requires d.Valid() && forall t: nat | t < |starts| :: starts[t] < d.Size()
  {
    exists schedule: seq<(nat, nat)> :: !AllRoots(d, After(Begin(d, starts), schedule))
  }

  predicate Distinct(s: seq<nat>) {
    forall t: nat, u: nat | t < |s| && u < |s| && s[t] == s[u] :: t == u
  }

  function Grand(d: Dsu, u: nat): (g: nat)
    requires d.Valid() && u < d.Size()
    ensures g < d.Size()
  {
    d.parent[d.parent[u]]
  }

  /** Every grandparent is a root. */
  predicate Shallow(d: Dsu)
    requires d.Valid()
  {
    forall u: nat | u < d.Size() :: d.IsRoot(Grand(d, u))
  }

  /** Every grandparent of a grandparent is a root. */
  predicate Low(d: Dsu)
    requires d.Valid()
  {
    forall u: nat | u < d.Size() :: d.IsRoot(Grand(d, Grand(d, u)))
  }

  /** The same inside the set of one root. */
  ghost predicate LowSet(d: Dsu, r: nat)
    requires d.Valid()
  {
    forall u: nat | u < d.Size() && d.Root(u) == r :: d.IsRoot(Grand(d, Grand(d, u)))
  }

  // One caller: what it has read is still there.

  ghost predicate Current(d: Dsu, f: Find)
    requires d.Valid() && InRange(d.Size(), f)
  {
    match f
    case Guard(u, p1, p2, p3) =>
      (p1.Some? ==> p1.value == d.parent[u]) &&
      (p2.Some? ==> p1.Some? && p2.value == d.parent[p1.value]) &&
      (p3.Some? ==> p3.value == d.parent[u])
    case Exit(u) => d.IsRoot(d.parent[u])
    case Found(r) => d.IsRoot(r)
    case _ => true
  }

  lemma CurrentStep(d: Dsu, x: nat, f: Find, pick: nat)
    requires d.Valid() && x < d.Size() && FindInv(d, x, f) && Current(d, f) && !f.Found?
    ensures var (e, g) := FindStep(d, f, pick); e.Valid() && InRange(e.Size(), g) && Current(e, g)
  {
    FindStepKeeps(d, x, f, pick);
  }

  // Several callers and low sets. Vertices keep the level they had before the calls: their
  // distance to the root, or HIGH if their set is not low. In a low set a search reaches only
  // levels up to 2 by climbing, so above that each vertex belongs to the one search that
  // starts there.

  const HIGH: nat := 5

  predicate LevelOk(d: Dsu, level: seq<nat>, x: nat)
    requires d.Valid() && |level| == d.Size() && x < d.Size()
  {
    if level[x] == HIGH then level[d.parent[x]] == HIGH
    else if d.IsRoot(x) then level[x] == 0
    else level[d.parent[x]] < level[x] <= 4
  }

  predicate Levels(d: Dsu, level: seq<nat>) {
    d.Valid() && |level| == d.Size() && forall x: nat | x < d.Size() :: LevelOk(d, level, x)
  }

  ghost function LevelOf(d: Dsu, x: nat): nat
    requires d.Valid() && x < d.Size()
  {
    var p := d.parent[x];
    if !LowSet(d, d.Root(x)) then HIGH
    else if d.IsRoot(x) then 0 else if d.IsRoot(p) then 1 else if d.IsRoot(d.parent[p]) then 2
    else if d.IsRoot(Grand(d, p)) then 3 else 4
  }

  ghost function LevelsOf(d: Dsu): (level: seq<nat>)
    requires d.Valid()
    ensures |level| == d.Size()
    ensures forall x: nat | x < d.Size() :: level[x] == HIGH <==> !LowSet(d, d.Root(x))
  {
    seq(d.Size(), x requires 0 <= x < d.Size() => LevelOf(d, x))
  }

  lemma LevelsOfOk(d: Dsu)
    requires d.Valid()
    ensures Levels(d, LevelsOf(d))
  {
    forall x: nat | x < d.Size()
      ensures LevelOk(d, LevelsOf(d), x)
    {
      assert d.Root(x) == d.Root(d.parent[x]);
      if LowSet(d, d.Root(x)) {
        assert d.IsRoot(Grand(d, Grand(d, x)));
      }
    }
  }

  /** High sets are high throughout. */
  lemma {:induction false} HighSet(d: Dsu, level: seq<nat>, x: nat)
    requires Levels(d, level) && x < d.Size()
    ensures level[x] == HIGH <==> level[d.Root(x)] == HIGH
    decreases d.Rank(x)
  {
    assert LevelOk(d, level, x);
    if !d.IsRoot(x) {
      RankDrops(d, d.parent[x], x);
      HighSet(d, level, d.parent[x]);
    }
  }

  /** Can two searches that start at x and y only meet where every grandparent is a root? */
  predicate Clear(level: seq<nat>, x: nat, y: nat) {
    x != y || forall v: nat | v < |level| :: level[v] <= 2
  }

  /** What a search from x has read and where it stands, if the set of x is low. */
  ghost predicate Steady(d: Dsu, level: seq<nat>, x: nat, f: Find)
    requires Levels(d, level) && x < d.Size() && InRange(d.Size(), f)
  {
    level[x] != HIGH ==> SteadyAt(d, level, x, f)
  }

  ghost predicate SteadyAt(d: Dsu, level: seq<nat>, x: nat, f: Find)
    requires Levels(d, level) && InRange(d.Size(), f)
  {
    (f.Found? || f.u == x || level[f.u] <= 2) &&
    match f
    case Guard(u, p1, p2, p3) =>
      (p1.Some? ==> if level[u] <= 2 then level[p1.value] <= 1 else p1.value == d.parent[u]) &&
      (p2.Some? ==> p2.value < d.Size() && (d.IsRoot(p2.value) || (level[u] > 2 && p2.value != d.parent[u]))) &&
      (p3.Some? ==> p3.value < d.Size() && if level[u] <= 2 then d.IsRoot(p3.value) ==> d.IsRoot(d.parent[u]) else p3.value == d.parent[u])
    case LoadGrand(u, p) => level[p] < level[u]
    case StoreHalf(u, g) => g < d.Size() && (level[g] == 0 || level[g] + 2 <= level[u])
    case Advance(u) => level[d.parent[u]] <= 2
    case Exit(u) => d.IsRoot(d.parent[u])
    case Found(r) => d.IsRoot(r)
    case _ => true
  }

  /** A step of a search from y: in low sets, stores at low levels write roots, others only happen at y. */
  ghost predicate Lifts(d: Dsu, e: Dsu, level: seq<nat>, y: nat) {
    SameRoots(d, e) && Levels(d, level) && Levels(e, level) &&
    forall v: nat | v < d.Size() && e.parent[v] != d.parent[v] ::
      if level[v] <= 2 then e.IsRoot(e.parent[v]) else level[v] == HIGH || v == y
  }

  lemma SteadyStable(d: Dsu, e: Dsu, level: seq<nat>, x: nat, y: nat, f: Find)
    requires Lifts(d, e, level, y) && Clear(level, x, y) && x < d.Size()
    requires InRange(d.Size(), f) && Steady(d, level, x, f)
    ensures InRange(e.Size(), f) && Steady(e, level, x, f)
  {
    if f.Advance? && level[x] != HIGH {
      assert LevelOk(e, level, f.u) && LevelOk(e, level, e.parent[f.u]);
    }
  }

  lemma StoreLifts(d: Dsu, level: seq<nat>, x: nat, u: nat, g: nat)
    requires Levels(d, level) && u < d.Size() && g < d.Size() && !d.IsRoot(u)
    requires level[u] != HIGH && (level[g] == 0 || level[g] + 2 <= level[u])
    requires u == x || level[u] <= 2
    requires var e := d.(parent := d.parent[u := g]); SameRoots(d, e)
    ensures Lifts(d, d.(parent := d.parent[u := g]), level, x)
  {
    var e := d.(parent := d.parent[u := g]);
    assert LevelOk(d, level, u) && LevelOk(d, level, g);
    forall v: nat | v < e.Size()
      ensures LevelOk(e, level, v)
    {
      assert LevelOk(d, level, v);
    }
  }

  /** A store in a high set concerns no other set. */
  lemma HighStore(d: Dsu, level: seq<nat>, x: nat, u: nat, g: nat)
    requires Levels(d, level) && u < d.Size() && g < d.Size() && d.SameSet(u, g) && level[u] == HIGH
    requires var e := d.(parent := d.parent[u := g]); SameRoots(d, e)
    ensures Lifts(d, d.(parent := d.parent[u := g]), level, x)
  {
    var e := d.(parent := d.parent[u := g]);
    HighSet(d, level, u);
    HighSet(d, level, g);
    forall v: nat | v < e.Size()
      ensures LevelOk(e, level, v)
    {
      assert LevelOk(d, level, v);
    }
  }

  lemma SteadyGuard(d: Dsu, level: seq<nat>, x: nat, f: Find, pick: nat)
    requires Levels(d, level) && x < d.Size() && level[x] != HIGH
    requires f.Guard? && InRange(d.Size(), f) && SteadyAt(d, level, x, f)
    requires f.p2.Some? ==> f.p1.Some?
    ensures InRange(d.Size(), GuardStep(d, f, pick)) && SteadyAt(d, level, x, GuardStep(d, f, pick))
  {
    assert LevelOk(d, level, f.u) && LevelOk(d, level, d.parent[f.u]);
    if f.p1.Some? {
      assert LevelOk(d, level, f.p1.value) && LevelOk(d, level, d.parent[f.p1.value]);
    }
  }

  lemma SteadyStep(d: Dsu, level: seq<nat>, x: nat, f: Find, pick: nat)
    requires Levels(d, level) && x < d.Size() && FindInv(d, x, f) && Steady(d, level, x, f) && !f.Found?
    ensures var (e, g) := FindStep(d, f, pick);
      Lifts(d, e, level, x) && InRange(e.Size(), g) && Steady(e, level, x, g)
  {
    FindStepKeeps(d, x, f, pick);
    if level[x] == HIGH {
      HighStep(d, level, x, f, pick);
    } else {
      LowStep(d, level, x, f, pick);
    }
  }

  lemma HighStep(d: Dsu, level: seq<nat>, x: nat, f: Find, pick: nat)
    requires Levels(d, level) && x < d.Size() && FindInv(d, x, f) && level[x] == HIGH && !f.Found?
    ensures Lifts(d, FindStep(d, f, pick).0, level, x)
  {
    FindStepKeeps(d, x, f, pick);
    if f.StoreHalf? {
      HighSet(d, level, x);
      HighSet(d, level, f.u);
      HighStore(d, level, x, f.u, f.g);
    }
  }

  lemma LowStep(d: Dsu, level: seq<nat>, x: nat, f: Find, pick: nat)
    requires Levels(d, level) && x < d.Size() && FindInv(d, x, f) && SteadyAt(d, level, x, f) && level[x] != HIGH && !f.Found?
    ensures var (e, g) := FindStep(d, f, pick);
      Lifts(d, e, level, x) && InRange(e.Size(), g) && SteadyAt(e, level, x, g)
  {
    FindStepKeeps(d, x, f, pick);
    assert LevelOk(d, level, f.u) && LevelOk(d, level, d.parent[f.u]);
    match f
    case Guard(_, _, _, _) =>
      SteadyGuard(d, level, x, f, pick);
    case LoadGrand(u, p) =>
      assert LevelOk(d, level, p);
    case StoreHalf(u, g) =>
      StoreLifts(d, level, x, u, g);
    case _ =>
  }

  /** Searches from these vertices never meet where it could hurt. */
  ghost predicate AllClear(level: seq<nat>, starts: seq<nat>) {
    forall t: nat, u: nat | t < |starts| && u < |starts| && t != u :: Clear(level, starts[t], starts[u])
  }

  ghost predicate AllSteady(s: Finders, level: seq<nat>) {
    Ok(s) && Levels(s.d, level) && AllClear(level, s.starts) &&
    forall t: nat | t < |s.finds| :: s.starts[t] < s.d.Size() && InRange(s.d.Size(), s.finds[t]) && Steady(s.d, level, s.starts[t], s.finds[t])
  }

  lemma AllSteadyStep(s: Finders, level: seq<nat>, who: nat, pick: nat)
    requires AllSteady(s, level)
    ensures AllSteady(Step(s, who, pick), level)
  {
    if who < |s.finds| && !s.finds[who].Found? {
      var f := s.finds[who];
      SteadyStep(s.d, level, s.starts[who], f, pick);
      var (e, g) := FindStep(s.d, f, pick);
      var finds := s.finds[who := g];
      forall t: nat | t < |finds|
        ensures s.starts[t] < e.Size() && InRange(e.Size(), finds[t]) && Steady(e, level, s.starts[t], finds[t])
      {
        if t != who {
          SteadyStable(s.d, e, level, s.starts[t], s.starts[who], s.finds[t]);
        }
      }
    }
  }

  /** Where concurrent calls are exact: low forests for different vertices, else shallow ones. */
  predicate Calm(d: Dsu, starts: seq<nat>)
    requires d.Valid()
  {
    Shallow(d) || (Low(d) && Distinct(starts))
  }

  lemma CalmClear(d: Dsu, starts: seq<nat>)
    requires d.Valid() && Calm(d, starts)
    ensures Levels(d, LevelsOf(d)) && AllClear(LevelsOf(d), starts)
    ensures forall x: nat | x < d.Size() :: LevelsOf(d)[x] != HIGH
  {
    LevelsOfOk(d);
    if Shallow(d) {
      forall v: nat | v < d.Size()
        ensures LevelsOf(d)[v] <= 2
      {
        assert d.IsRoot(Grand(d, v));
      }
    }
  }

  lemma StartSteady(d: Dsu, level: seq<nat>, starts: seq<nat>)
    requires Levels(d, level) && AllClear(level, starts) && forall t: nat | t < |starts| :: starts[t] < d.Size()
    ensures AllSteady(Begin(d, starts), level)
  {
  }

  lemma {:induction false} SteadyRuns(d: Dsu, starts: seq<nat>, schedule: seq<(nat, nat)>)
    requires d.Valid() && (forall t: nat | t < |starts| :: starts[t] < d.Size()) && Calm(d, starts)
    ensures var s := After(Begin(d, starts), schedule); SameRoots(d, s.d) && AllSteady(s, LevelsOf(d))
  {
    CalmClear(d, starts);
    if schedule == [] {
      StartSteady(d, LevelsOf(d), starts);
    } else {
      var m := |schedule| - 1;
      SteadyRuns(d, starts, schedule[..m]);
      var s := After(Begin(d, starts), schedule[..m]);
      var (who, pick) := schedule[m];
      SameRootsTrans(d, s.d, Step(s, who, pick).d);
      AllSteadyStep(s, LevelsOf(d), who, pick);
    }
  }

  lemma {:induction false} LoneRuns(d: Dsu, starts: seq<nat>, schedule: seq<(nat, nat)>)
    requires d.Valid() && (forall t: nat | t < |starts| :: starts[t] < d.Size()) && |starts| <= 1
    ensures var s := After(Begin(d, starts), schedule);
      SameRoots(d, s.d) && forall t: nat | t < |s.finds| :: Current(s.d, s.finds[t])
  {
    if schedule != [] {
      var m := |schedule| - 1;
      LoneRuns(d, starts, schedule[..m]);
      var s := After(Begin(d, starts), schedule[..m]);
      var (who, pick) := schedule[m];
      SameRootsTrans(d, s.d, Step(s, who, pick).d);
      if who < |s.finds| && !s.finds[who].Found? {
        CurrentStep(s.d, s.starts[who], s.finds[who], pick);
      }
    }
  }

  lemma RootsFromSafe(d: Dsu, starts: seq<nat>, schedule: seq<(nat, nat)>)
    requires d.Valid() && forall t: nat | t < |starts| :: starts[t] < d.Size()
    requires |starts| <= 1 || Calm(d, starts)
    ensures AllRoots(d, After(Begin(d, starts), schedule))
  {
    if |starts| <= 1 {
      LoneRuns(d, starts, schedule);
    } else {
      SteadyRuns(d, starts, schedule);
      CalmClear(d, starts);
    }
    var s := After(Begin(d, starts), schedule);
    forall t: nat | t < |s.finds| && s.finds[t].Found?
      ensures s.finds[t].r == d.Root(s.starts[t])
    {
      assert FindInv(s.d, s.starts[t], s.finds[t]);
      assert s.d.IsRoot(s.finds[t].r);
    }
  }

  // Deeper forests: call 1 stores between two loads of call 0's loop condition.

  ghost predicate Leads(s: Finders, r: Finders)
    requires Ok(s)
  {
    Ok(r) && r.starts == s.starts && exists schedule: seq<(nat, nat)> :: After(s, schedule) == r
  }

  /** One more step of thread who. */
  lemma Move(s0: Finders, s: Finders, who: nat, pick: nat, r: Finders)
    requires Ok(s0) && Leads(s0, s) && who < |s.finds| && !s.finds[who].Found?
    requires InRange(s.d.Size(), s.finds[who])
    requires r == var (e, g) := FindStep(s.d, s.finds[who], pick); Finders(e, s.starts, s.finds[who := g])
    ensures Leads(s0, r)
  {
    assert Step(s, who, pick) == r;
    LeadsNext(s0, s, who, pick);
  }

  lemma LeadsNext(s0: Finders, s: Finders, who: nat, pick: nat)
    requires Ok(s0) && Leads(s0, s)
    ensures Leads(s0, Step(s, who, pick))
  {
    var w: seq<(nat, nat)> :| After(s0, w) == s;
    AfterSnoc(s0, w, who, pick);
  }

  /** After(s, schedule + [move]) is one more step. */
  lemma AfterSnoc(s: Finders, schedule: seq<(nat, nat)>, who: nat, pick: nat)
    requires Ok(s)
    ensures After(s, schedule + [(who, pick)]) == Step(After(s, schedule), who, pick)
  {
    assert (schedule + [(who, pick)])[..|schedule|] == schedule;
  }

  function With(s: Finders, who: nat, f: Find): Finders
    requires who < |s.finds|
  {
    s.(finds := s.finds[who := f])
  }

  lemma ReadsBoth(s0: Finders, s: Finders, who: nat, u: nat)
    requires Ok(s0) && Leads(s0, s) && who < |s.finds| && s.finds[who] == StartFind(u) && u < s.d.Size()
    ensures Leads(s0, With(s, who, Guard(u, Some(s.d.parent[u]), None, Some(s.d.parent[u]))))
  {
    var x := s.d.parent[u];
    var s1 := With(s, who, Guard(u, None, None, Some(x)));
    Move(s0, s, who, 0, s1);
    Move(s0, s1, who, 0, With(s, who, Guard(u, Some(x), None, Some(x))));
  }

  lemma ReadsGrand(s0: Finders, s: Finders, who: nat, u: nat, x: nat)
    requires Ok(s0) && Leads(s0, s) && who < |s.finds| && s.finds[who] == Guard(u, Some(x), None, Some(x))
    requires u < s.d.Size() && x < s.d.Size() && !s.d.IsRoot(x)
    ensures Leads(s0, With(s, who, LoadParent(u)))
  {
    var s1 := With(s, who, Guard(u, Some(x), Some(s.d.parent[x]), Some(x)));
    Move(s0, s, who, 0, s1);
    Move(s0, s1, who, 0, With(s, who, LoadParent(u)));
  }

  /** Thread who gets past the loop condition. */
  lemma PassesGuard(s0: Finders, s: Finders, who: nat, u: nat)
    requires Ok(s0) && Leads(s0, s) && who < |s.finds| && s.finds[who] == StartFind(u)
    requires u < s.d.Size() && !s.d.IsRoot(s.d.parent[u])
    ensures Leads(s0, With(s, who, LoadParent(u)))
  {
    var x := s.d.parent[u];
    ReadsBoth(s0, s, who, u);
    var s1 := With(s, who, Guard(u, Some(x), None, Some(x)));
    ReadsGrand(s0, s1, who, u, x);
    assert With(s1, who, LoadParent(u)) == With(s, who, LoadParent(u));
  }

  /** Thread who halves its path. */
  lemma Halves(s0: Finders, s: Finders, who: nat, u: nat)
    requires Ok(s0) && Leads(s0, s) && who < |s.finds| && s.finds[who] == LoadParent(u) && u < s.d.Size()
    ensures Leads(s0, With(s.(d := s.d.(parent := s.d.parent[u := Grand(s.d, u)])), who, Advance(u)))
  {
    LoadsBoth(s0, s, who, u);
    Move(s0, With(s, who, StoreHalf(u, Grand(s.d, u))), who, 0,
         With(s.(d := s.d.(parent := s.d.parent[u := Grand(s.d, u)])), who, Advance(u)));
  }

  lemma LoadsBoth(s0: Finders, s: Finders, who: nat, u: nat)
    requires Ok(s0) && Leads(s0, s) && who < |s.finds| && s.finds[who] == LoadParent(u) && u < s.d.Size()
    ensures Leads(s0, With(s, who, StoreHalf(u, Grand(s.d, u))))
  {
    var x := s.d.parent[u];
    var s1 := With(s, who, LoadGrand(u, x));
    Move(s0, s, who, 0, s1);
    Move(s0, s1, who, 0, With(s, who, StoreHalf(u, s.d.parent[x])));
  }

  /** The first two loads of the loop condition. */
  lemma ReadsLeft(s0: Finders, s: Finders, who: nat, u: nat)
    requires Ok(s0) && Leads(s0, s) && who < |s.finds| && s.finds[who] == StartFind(u) && u < s.d.Size()
    ensures Leads(s0, With(s, who, Guard(u, Some(s.d.parent[u]), Some(Grand(s.d, u)), None)))
  {
    var x := s.d.parent[u];
    var s1 := With(s, who, Guard(u, Some(x), None, None));
    Move(s0, s, who, 1, s1);
    Move(s0, s1, who, 1, With(s, who, Guard(u, Some(x), Some(s.d.parent[x]), None)));
  }

  /** The third load sees what the first two led to, and the search ends. */
  lemma GivesUp(s0: Finders, s: Finders, who: nat, u: nat, x: nat)
    requires Ok(s0) && Leads(s0, s) && who < |s.finds| && u < s.d.Size()
    requires s.finds[who] == Guard(u, Some(x), Some(s.d.parent[u]), None) && x < s.d.Size()
    ensures Leads(s0, With(s, who, Found(s.d.parent[u])))
  {
    var y := s.d.parent[u];
    var s1, s2 := With(s, who, Guard(u, Some(x), Some(y), Some(y))), With(s, who, Exit(u));
    Move(s0, s, who, 0, s1);
    Move(s0, s1, who, 0, s2);
    Move(s0, s2, who, 0, With(s, who, Found(y)));
  }

  /** Search 1 has halved its path at u, and search 0 has returned the grandparent of u. */
  function Met(s: Finders, u: nat): (r: Finders)
    requires s.d.Valid() && u < s.d.Size() && |s.finds| >= 2
    ensures r.starts == s.starts && r.d == s.d.(parent := s.d.parent[u := Grand(s.d, u)])
    ensures |r.finds| == |s.finds| && r.finds[0] == Found(Grand(s.d, u)) && r.finds[1] == Advance(u)
  {
    var x, y := s.d.parent[u], Grand(s.d, u);
    var s1 := With(s, 0, Guard(u, Some(x), Some(y), None));
    var s2 := With(s1, 1, LoadParent(u));
    With(With(s2.(d := s2.d.(parent := s2.d.parent[u := y])), 1, Advance(u)), 0, Found(y))
  }

  /** Two searches at the same vertex: search 0 can return its grandparent. */
  lemma Meet(s0: Finders, s: Finders, u: nat)
    requires Ok(s0) && Leads(s0, s) && |s.finds| >= 2 && s.finds[0] == s.finds[1] == StartFind(u)
    requires u < s.d.Size() && !s.d.IsRoot(s.d.parent[u])
    ensures Leads(s0, Met(s, u))
  {
    var x, y := s.d.parent[u], Grand(s.d, u);
    ReadsLeft(s0, s, 0, u);
    var s1 := With(s, 0, Guard(u, Some(x), Some(y), None));
    PassesGuard(s0, s1, 1, u);
    var s2 := With(s1, 1, LoadParent(u));
    Halves(s0, s2, 1, u);
    var s3 := With(s2.(d := s2.d.(parent := s2.d.parent[u := y])), 1, Advance(u));
    GivesUp(s0, s3, 0, u, x);
  }

  lemma WrongAnswer(d: Dsu, starts: seq<nat>, s: Finders, g: nat)
    requires d.Valid() && (forall t: nat | t < |starts| :: starts[t] < d.Size())
    requires Leads(Begin(d, starts), s) && |s.finds| > 0 && s.finds[0] == Found(g) && g < d.Size() && !d.IsRoot(g)
    ensures Fails(d, starts)
  {
    var w: seq<(nat, nat)> :| After(Begin(d, starts), w) == s;
    assert s.finds[0].r != d.Root(s.starts[0]);
    assert !AllRoots(d, After(Begin(d, starts), w));
  }

  /** Where a grandparent is not a root, two concurrent calls from one vertex can return it. */
  lemma RaceMissesRoot(d: Dsu, starts: seq<nat>, u: nat)
    requires d.Valid() && u < d.Size() && |starts| >= 2
    requires forall t: nat | t < |starts| :: starts[t] == u
    requires !d.IsRoot(Grand(d, u))
    ensures Fails(d, starts)
  {
    var s := Begin(d, starts);
    assert After(s, []) == s;
    Meet(s, s, u);
    WrongAnswer(d, starts, Met(s, u), Grand(d, u));
  }

  /** Four parents up, no vertex is met again. */
  lemma FarUp(d: Dsu, a: nat)
    requires d.Valid() && a < d.Size() && !d.IsRoot(Grand(d, Grand(d, a)))
    ensures var u := Grand(d, a); a != u && a != d.parent[u] && !d.IsRoot(d.parent[a]) && !d.IsRoot(d.parent[u])
  {
    var u := Grand(d, a);
    ParentUp(d, a);
    ParentUp(d, d.parent[a]);
    ParentUp(d, u);
    UpTrans(d, a, d.parent[a], u);
    UpTrans(d, a, u, d.parent[u]);
    RankDrops(d, d.parent[u], u);
    RankDrops(d, u, d.parent[a]);
  }

  /** Search 0 has climbed from a to its grandparent. */
  function Climbed(s: Finders, a: nat): (r: Finders)
    requires s.d.Valid() && a < s.d.Size() && |s.finds| > 0
    ensures r.starts == s.starts && r.d == s.d.(parent := s.d.parent[a := Grand(s.d, a)])
    ensures r.finds == s.finds[0 := StartFind(Grand(s.d, a))]
  {
    var s1 := With(s, 0, LoadParent(a));
    With(With(s1.(d := s1.d.(parent := s1.d.parent[a := Grand(s.d, a)])), 0, Advance(a)), 0, StartFind(Grand(s.d, a)))
  }

  /**
   * Searches from different vertices: one from a climbs to its grandparent u and meets the
   * search that starts there.
   */
  lemma RaceApart(d: Dsu, starts: seq<nat>, a: nat)
    requires d.Valid() && a < d.Size() && |starts| >= 2 && !d.IsRoot(Grand(d, Grand(d, a)))
    requires forall t: nat | t < |starts| :: starts[t] < d.Size()
    requires starts[0] == a && starts[1] == Grand(d, a)
    ensures var s := Climbed(Begin(d, starts), a);
      s.d.Valid() && Grand(s.d, Grand(d, a)) == Grand(d, Grand(d, a)) && Leads(Begin(d, starts), Met(s, Grand(d, a)))
  {
    var u := Grand(d, a);
    FarUp(d, a);
    var s := Begin(d, starts);
    assert After(s, []) == s;
    Climbs(s, a);
    Meet(s, Climbed(s, a), u);
  }

  lemma Climbs(s: Finders, a: nat)
    requires Ok(s) && Leads(s, s) && |s.finds| > 0 && a < s.d.Size() && s.finds[0] == StartFind(a)
    requires !s.d.IsRoot(s.d.parent[a]) && Grand(s.d, a) != a
    ensures Leads(s, Climbed(s, a))
  {
    PassesGuard(s, s, 0, a);
    var s1 := With(s, 0, LoadParent(a));
    Halves(s, s1, 0, a);
    var s2 := With(s1.(d := s1.d.(parent := s1.d.parent[a := Grand(s1.d, a)])), 0, Advance(a));
    Move(s, s2, 0, 0, Climbed(s, a));
  }

  /** So calls from different vertices can return a vertex that is not a root. */
  lemma RaceApartMissesRoot(d: Dsu, starts: seq<nat>, a: nat)
    requires d.Valid() && a < d.Size() && |starts| >= 2 && !d.IsRoot(Grand(d, Grand(d, a)))
    requires forall t: nat | t < |starts| :: starts[t] < d.Size()
    requires starts[0] == a && starts[1] == Grand(d, a)
    ensures Fails(d, starts)
  {
    RaceApart(d, starts, a);
    WrongAnswer(d, starts, Met(Climbed(Begin(d, starts), a), Grand(d, a)), Grand(d, Grand(d, a)));
  }

  /**
   * Exactly when concurrent find_root calls are exact: a single caller, or a forest in
   * which every grandparent is a root.
   */
  lemma FindExactIff(d: Dsu, k: nat)
    requires d.Valid()
    ensures AlwaysRoots(d, k) <==> k <= 1 || Shallow(d)
  {
    if k <= 1 || Shallow(d) {
      forall starts: seq<nat>, schedule: seq<(nat, nat)> |
        |starts| == k && (forall t: nat | t < k :: starts[t] < d.Size())
        ensures AllRoots(d, After(Begin(d, starts), schedule))
      {
        RootsFromSafe(d, starts, schedule);
      }
    } else {
      var u: nat :| u < d.Size() && !d.IsRoot(Grand(d, u));
      var starts := seq(k, t requires 0 <= t => u);
      RaceMissesRoot(d, starts, u);
      var w: seq<(nat, nat)> :| !AllRoots(d, After(Begin(d, starts), w));
    }
  }

  // Which sizes guarantee a low forest

  /** Six vertices are needed for one to be more than four links below its root. */
  lemma SmallIsLow(d: Dsu)
    requires d.Valid() && d.Size() <= 5
    ensures Low(d)
  {
    forall a: nat | a < d.Size()
      ensures d.IsRoot(Grand(d, Grand(d, a)))
    {
      if !d.IsRoot(Grand(d, Grand(d, a))) {
        HighRank(d, a);
        RankBound(d, a);
      }
    }
  }

  lemma HighRank(d: Dsu, a: nat)
    requires d.Valid() && a < d.Size() && !d.IsRoot(Grand(d, Grand(d, a)))
    ensures d.Rank(a) >= 5
  {
    var b := d.parent[a];
    var c := d.parent[b];
    var x := d.parent[c];
    var y := d.parent[x];
    RankDrops(d, b, a);
    RankDrops(d, c, b);
    RankDrops(d, x, c);
    RankDrops(d, y, x);
    RankDrops(d, d.parent[y], y);
  }

  /** 5 below 4 below 3 below 2 below 1 below 0, and every other vertex alone. */
  function Chain(n: nat): (d: Dsu)
    requires n >= 6
    ensures d.Valid() && d.Size() == n
  {
    Dsu(seq(n, _ => 0), seq(n, i requires 0 <= i => if 0 < i < 6 then i - 1 else i))
  }

  lemma ChainIsHigh(n: nat)
    requires n >= 6
    ensures !Low(Chain(n))
  {
    var d := Chain(n);
    assert Grand(d, 5) == 3 && Grand(d, 3) == 1 && !d.IsRoot(1);
  }

  function Swapped(s: seq<nat>, i: nat, k: nat): seq<nat>
    requires i < |s| && k < |s|
  {
    s[i := s[k]][k := s[i]]
  }

  lemma SwapKeepsDistinct(s: seq<nat>, n: nat, i: nat, k: nat)
    requires i < |s| && k < |s| && Distinct(s) && forall t: nat | t < |s| :: s[t] < n
    ensures Distinct(Swapped(s, i, k)) && forall t: nat | t < |s| :: Swapped(s, i, k)[t] < n
  {
    var r := Swapped(s, i, k);
    forall t: nat, u: nat | t < |r| && u < |r| && r[t] == r[u]
      ensures t == u
    {
      var t', u' := if t == i then k else if t == k then i else t, if u == i then k else if u == k then i else u;
      assert r[t] == s[t'] && r[u] == s[u'];
    }
  }

  /** All vertices, in an order that has two given ones at positions 0 and q. */
  lemma PlaceTwo(n: nat, q: nat, a: nat, u: nat) returns (order: seq<nat>)
    requires 0 < q < n && a < n && u < n && a != u
    ensures |order| == n && Distinct(order) && order[0] == a && order[q] == u
    ensures forall t: nat | t < n :: order[t] < n
  {
    var ids := seq(n, i requires 0 <= i => i);
    SwapKeepsDistinct(ids, n, 0, a);
    var all := Swapped(ids, 0, a);
    var at := if u == 0 then a else u;
    assert all[at] == u && at > 0;
    SwapKeepsDistinct(all, n, q, at);
    order := Swapped(all, q, at);
  }

  /** k different vertices that begin with two given ones. */
  lemma DistinctStarts(n: nat, k: nat, a: nat, u: nat) returns (starts: seq<nat>)
    requires 2 <= k <= n && a < n && u < n && a != u
    ensures |starts| == k && Distinct(starts) && starts[0] == a && starts[1] == u
    ensures forall t: nat | t < k :: starts[t] < n
  {
    var order := PlaceTwo(n, 1, a, u);
    starts := order[..k];
    assert forall t: nat | t < k :: starts[t] == order[t];
  }

  lemma ApartGoesWrong(d: Dsu, k: nat, a: nat)
    requires d.Valid() && 2 <= k <= d.Size() && a < d.Size() && !d.IsRoot(Grand(d, Grand(d, a))) && Grand(d, a) != a
    ensures !AlwaysRootsApart(d, k)
  {
    var starts := DistinctStarts(d.Size(), k, a, Grand(d, a));
    RaceApartMissesRoot(d, starts, a);
    FailsApart(d, starts);
  }

  lemma FailsApart(d: Dsu, starts: seq<nat>)
    requires d.Valid() && (forall t: nat | t < |starts| :: starts[t] < d.Size()) && Distinct(starts) && Fails(d, starts)
    ensures !AlwaysRootsApart(d, |starts|)
  {
    var w: seq<(nat, nat)> :| !AllRoots(d, After(Begin(d, starts), w));
  }

  /** For calls from different vertices: a single caller, or a forest of height at most four. */
  lemma FindExactApartIff(d: Dsu, k: nat)
    requires d.Valid() && k <= d.Size()
    ensures AlwaysRootsApart(d, k) <==> k <= 1 || Low(d)
  {
    if k <= 1 || Low(d) {
      forall starts: seq<nat>, schedule: seq<(nat, nat)> |
        |starts| == k && Distinct(starts) && (forall t: nat | t < k :: starts[t] < d.Size())
        ensures AllRoots(d, After(Begin(d, starts), schedule))
      {
        RootsFromSafe(d, starts, schedule);
      }
    } else {
      var a: nat :| a < d.Size() && !d.IsRoot(Grand(d, Grand(d, a)));
      FarUp(d, a);
      ApartGoesWrong(d, k, a);
    }
  }
}
