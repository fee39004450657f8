// Whole runs of perform_boruvka_round after round 0: the walk of Round combined with the
// merging of sampled edges of Supernode, under every interleaving of the threads.

module RoundRuns {
  import opened Counting
  import opened Graphs
  import opened DsuSpec
  import opened DsuConcurrent
  import opened SketchSpec
  import opened Jobs
  import opened RoundSpec
  import opened SampleLog
  import opened Round
  import Runs
  import S = Supernode

  datatype State = State(sys: S.Sys, th: seq<Thr>, slots: seq<Slot>, log: seq<Entry>, except: bool)

  /** Some thread has caught the exception of an exhausted sketch. */
  ghost predicate Raised(s: State) {
    s.except || exists t: nat :: t < |s.th| && s.th[t].failed
  }

  ghost predicate Handy(s: State) {
    && |s.sys.sups| == |s.th|
    && (forall t: nat | t < |s.th| && !s.th[t].pc.Busy? :: s.sys.sups[t].Idle?)
    && (forall t: nat | t < |s.th| && s.th[t].pc.Done? && s.th[t].failed :: s.except)
  }

  /** What every step of a round keeps; f is the spanning forest at its start. */
  ghost predicate RoundInv(c: Cfg, f: Graph, s: State) {
    match s
    case State(sys, th, slots, log, _) =>
      && Walk(c, th, slots, log)
      && S.SysInv(sys, f) && sys.d.Size() == c.N()
      && Handy(s) && Record(sys, Raised(s), log)
  }

  // The steps

  /** Thread t's next step only uses indices that exist. */
  predicate Able(c: Cfg, s: State, t: nat) {
    && c.Shaped() && |s.th| == |s.slots| == |s.sys.sups| == c.j.Threads() && t < |s.th|
    && s.sys.d.Valid() && Reach(c, s, t, s.th[t])
  }

  predicate Reach(c: Cfg, s: State, t: nat, x: Thr)
    requires c.Shaped() && |s.slots| == |s.sys.sups| == c.j.Threads() && t < |s.sys.sups|
  {
    && c.j.lo[t] < c.j.lo[t + 1] <= c.N() && x.base < c.N() && x.i <= c.N() && |x.acc.bks| == c.p.NumBuckets()
    && match x.pc
       case NeedCount(g) => t <= g < |s.slots|
       case MergeSlot(g, _) => g < |s.slots| && |s.slots[g].sk.bks| == c.p.NumBuckets()
       case TakeSlot(g, _) => g < |s.slots| && |s.slots[g].sk.bks| == c.p.NumBuckets()
       case Busy(_) => s.sys.sups[t].Merging? ==> MergeInRange(s.sys.d.Size(), s.sys.sups[t].m)
       case _ => true
  }

  lemma StepReady(c: Cfg, f: Graph, s: State, t: nat)
    requires RoundInv(c, f, s) && t < |s.th|
    ensures c.Valid() && Able(c, s, t)
  {
    assert ThrInv(c, t, s.th[t]);
    OwnerBounds(c, t);
    match s.th[t].pc {
      case NeedCount(g) => NeedKeeps(c, s.th, s.slots, s.log, t, g);
      case MergeSlot(g, fin) => MergeKeeps(c, s.th, s.slots, s.log, t, g);
      case TakeSlot(g, fin) => TakeSlotKeeps(c, s.th, s.slots, s.log, t, g, fin);
      case Busy(_) => assert S.SupInv(s.sys, f, s.sys.sups[t]);
      case _ =>
    }
  }

  /** sample_supernode up to the outcome of the sample. */
  function Take(c: Cfg, s: State, t: nat, slots: seq<Slot>, sk: SketchVal, fin: bool): State
    requires c.p.Valid() && |sk.bks| == c.p.NumBuckets() && t < |s.th| == |s.sys.sups| && s.th[t].base < c.N()
  {
    var o := Sampled(c.p, sk);
    State(S.Begin(s.sys, t, o), s.th[t := SampledThr(s.th[t], fin, o)], slots,
          s.log + [Entry(c.Root(s.th[t].base), o)], s.except)
  }

  function Leave(c: Cfg, s: State, t: nat, fin: bool): State
    requires t < |s.th|
  {
    s.(th := s.th[t := LeftThr(c, s.th[t], fin)], except := s.except || (fin && s.th[t].failed))
  }

  /** One atomic step of thread t; ch resolves a racing load or a spurious failure. */
  function Step(c: Cfg, s: State, t: nat, ch: Choice): State
    requires Able(c, s, t) && !s.th[t].pc.Done?
  {
    var x := s.th[t];
    match x.pc
    case Scan => s.(th := s.th[t := ScanMove(c, t, x)])
    case NeedCount(g) =>
      s.(th := s.th[t := x.(pc := MergeSlot(g, true))], slots := NeededSlots(s.slots, t, g))
    case MergeSlot(g, _) =>
      s.(th := s.th[t := MergedThr(x, s.slots[g])], slots := s.slots[g := MergedSlot(c, t, x, s.slots[g])])
    case TakeLocal(fin) => Take(c, s, t, s.slots, x.acc, fin)
    case TakeSlot(g, fin) => Take(c, s, t, ReadSlots(s.slots, g), s.slots[g].sk, fin)
    case Busy(fin) =>
      if s.sys.sups[t].Idle? then Leave(c, s, t, fin) else s.(sys := S.Advance(s.sys, t, ch))
  }

  // Every step keeps the invariant

  function Stage(pc: Pc): nat {
    match pc
    case Scan => 9
    case NeedCount(_) => 8
    case MergeSlot(_, _) => 7
    case TakeLocal(_) => 6
    case TakeSlot(_, _) => 6
    case Busy(_) => 5
    case Done => 0
  }

  /** Thread t has moved on without scanning. */
  ghost predicate Nearer(s: State, r: State, t: nat)
    requires t < |s.th|
  {
    && |r.th| == |s.th| && r.th == s.th[t := r.th[t]]
    && r.th[t].base == s.th[t].base && r.th[t].i == s.th[t].i && Stage(r.th[t].pc) < Stage(s.th[t].pc)
  }

  lemma RaisedUpdate(s: State, r: State, t: nat)
    requires t < |s.th| == |r.th| && r.th == s.th[t := r.th[t]]
    requires r.except || r.th[t].failed <==> s.except || s.th[t].failed || (r.th[t].failed && !s.th[t].failed)
    requires s.except ==> r.except
    requires s.th[t].failed ==> r.th[t].failed
    ensures Raised(r) <==> Raised(s) || (r.th[t].failed && !s.th[t].failed)
  {
    if u: nat :| u < |s.th| && s.th[u].failed {
      assert r.th[u].failed;
    }
    if Raised(r) && !r.except {
      var u: nat :| u < |r.th| && r.th[u].failed;
      assert u != t ==> s.th[u].failed;
    }
  }

  /** Scanning, announcing a count, and merging into a slot touch no shared variable of the samples. */
  lemma WalkStepKeeps(c: Cfg, f: Graph, s: State, r: State, t: nat)
    requires RoundInv(c, f, s) && t < |s.th| && Walk(c, r.th, r.slots, r.log)
    requires r.sys == s.sys && r.log == s.log && r.except == s.except
    requires |r.th| == |s.th| && r.th == s.th[t := r.th[t]]
    requires r.th[t].failed == s.th[t].failed && !s.th[t].pc.Busy? && !r.th[t].pc.Done?
    ensures RoundInv(c, f, r)
  {
    RaisedUpdate(s, r, t);
  }

  lemma ScanWalk(c: Cfg, th: seq<Thr>, slots: seq<Slot>, log: seq<Entry>, t: nat)
    requires Walk(c, th, slots, log) && t < |th| && th[t].pc.Scan?
    ensures c.j.lo[t] < c.j.lo[t + 1] <= c.N() && th[t].base < c.N() && th[t].i <= c.N() && |th[t].acc.bks| == c.p.NumBuckets()
    ensures var y := ScanMove(c, t, th[t]); Walk(c, th[t := y], slots, log) && y.failed == th[t].failed && !y.pc.Done?
  {
    assert ThrInv(c, t, th[t]);
    ScanKeeps(c, t, th[t]);
    QuietStep(c, th, slots, log, t, ScanMove(c, t, th[t]));
  }

  lemma ScanStep(c: Cfg, f: Graph, s: State, t: nat, ch: Choice)
    requires RoundInv(c, f, s) && Able(c, s, t) && s.th[t].pc.Scan?
    ensures RoundInv(c, f, Step(c, s, t, ch)) && Step(c, s, t, ch).sys.d == s.sys.d
  {
    ScanWalk(c, s.th, s.slots, s.log, t);
    WalkStepKeeps(c, f, s, Step(c, s, t, ch), t);
  }

  lemma NeedStep(c: Cfg, f: Graph, s: State, t: nat, ch: Choice)
    requires RoundInv(c, f, s) && Able(c, s, t) && s.th[t].pc.NeedCount?
    ensures RoundInv(c, f, Step(c, s, t, ch)) && Step(c, s, t, ch).sys.d == s.sys.d
    ensures Nearer(s, Step(c, s, t, ch), t)
  {
    NeedKeeps(c, s.th, s.slots, s.log, t, s.th[t].pc.g);
    WalkStepKeeps(c, f, s, Step(c, s, t, ch), t);
  }

  lemma MergeStepKeeps(c: Cfg, f: Graph, s: State, t: nat, ch: Choice)
    requires RoundInv(c, f, s) && Able(c, s, t) && s.th[t].pc.MergeSlot?
    ensures RoundInv(c, f, Step(c, s, t, ch)) && Step(c, s, t, ch).sys.d == s.sys.d
    ensures Nearer(s, Step(c, s, t, ch), t)
  {
    MergeKeeps(c, s.th, s.slots, s.log, t, s.th[t].pc.g);
    WalkStepKeeps(c, f, s, Step(c, s, t, ch), t);
  }

  lemma TakeSys(c: Cfg, f: Graph, s: State, t: nat, slots: seq<Slot>, sk: SketchVal, fin: bool)
    requires c.p.Valid() && S.SysInv(s.sys, f) && t < |s.th| == |s.sys.sups| && s.th[t].base < c.N()
    requires |sk.bks| == c.p.NumBuckets() && s.sys.sups[t].Idle?
    ensures var r := Take(c, s, t, slots, sk, fin); S.SysInv(r.sys, f) && r.sys.d == s.sys.d
  {
    S.BeginKeeps(s.sys, f, t, Sampled(c.p, sk));
  }

  lemma TakeRecords(c: Cfg, s: State, t: nat, slots: seq<Slot>, sk: SketchVal, fin: bool)
    requires c.p.Valid() && Record(s.sys, Raised(s), s.log) && t < |s.th| == |s.sys.sups| && s.th[t].base < c.N()
    requires |sk.bks| == c.p.NumBuckets()
    ensures var r := Take(c, s, t, slots, sk, fin); Record(r.sys, Raised(r), r.log)
  {
    var r := Take(c, s, t, slots, sk, fin);
    var o := Sampled(c.p, sk);
    RaisedTake(s, r, t, o);
    RecordBegin(s.sys, Raised(s), s.log, t, Entry(c.Root(s.th[t].base), o));
  }

  lemma RaisedTake(s: State, r: State, t: nat, o: Outcome)
    requires t < |s.th| && r.except == s.except && |r.th| == |s.th| && r.th == s.th[t := r.th[t]]
    requires r.th[t].failed == (s.th[t].failed || o.OutOfSamples?)
    ensures Raised(r) <==> Raised(s) || o.OutOfSamples?
  {
    if u: nat :| u < |s.th| && s.th[u].failed {
      assert r.th[u].failed;
    }
    if Raised(r) && !r.except {
      var u: nat :| u < |r.th| && r.th[u].failed;
      assert u != t ==> s.th[u].failed;
    }
  }

  lemma TakeHandy(c: Cfg, s: State, t: nat, slots: seq<Slot>, sk: SketchVal, fin: bool)
    requires Handy(s) && c.p.Valid() && t < |s.th| && s.th[t].base < c.N() && |sk.bks| == c.p.NumBuckets()
    ensures Handy(Take(c, s, t, slots, sk, fin))
  {
  }

  lemma TakeNearer(c: Cfg, s: State, t: nat, slots: seq<Slot>, sk: SketchVal, fin: bool)
    requires c.p.Valid() && t < |s.th| == |s.sys.sups| && s.th[t].base < c.N() && |sk.bks| == c.p.NumBuckets()
    requires s.th[t].pc.TakeLocal? || s.th[t].pc.TakeSlot?
    ensures Nearer(s, Take(c, s, t, slots, sk, fin), t)
  {
  }

  lemma TakeLocalStep(c: Cfg, f: Graph, s: State, t: nat, ch: Choice)
    requires RoundInv(c, f, s) && Able(c, s, t) && s.th[t].pc.TakeLocal?
    ensures RoundInv(c, f, Step(c, s, t, ch)) && Step(c, s, t, ch).sys.d == s.sys.d
    ensures Nearer(s, Step(c, s, t, ch), t)
  {
    StepReady(c, f, s, t);
    var x := s.th[t];
    TakeLocalKeeps(c, s.th, s.slots, s.log, t, x.pc.fin);
    TakeSys(c, f, s, t, s.slots, x.acc, x.pc.fin);
    TakeRecords(c, s, t, s.slots, x.acc, x.pc.fin);
    TakeHandy(c, s, t, s.slots, x.acc, x.pc.fin);
    TakeNearer(c, s, t, s.slots, x.acc, x.pc.fin);
  }

  lemma TakeSlotStep(c: Cfg, f: Graph, s: State, t: nat, ch: Choice)
    requires RoundInv(c, f, s) && Able(c, s, t) && s.th[t].pc.TakeSlot?
    ensures RoundInv(c, f, Step(c, s, t, ch)) && Step(c, s, t, ch).sys.d == s.sys.d
    ensures Nearer(s, Step(c, s, t, ch), t)
  {
    StepReady(c, f, s, t);
    var x := s.th[t];
    var g := x.pc.g;
    TakeSlotKeeps(c, s.th, s.slots, s.log, t, g, x.pc.fin);
    TakeSys(c, f, s, t, ReadSlots(s.slots, g), s.slots[g].sk, x.pc.fin);
    TakeRecords(c, s, t, ReadSlots(s.slots, g), s.slots[g].sk, x.pc.fin);
    TakeHandy(c, s, t, ReadSlots(s.slots, g), s.slots[g].sk, x.pc.fin);
    TakeNearer(c, s, t, ReadSlots(s.slots, g), s.slots[g].sk, x.pc.fin);
  }

  lemma SysStepKeeps(c: Cfg, f: Graph, s: State, sys: S.Sys, t: nat)
    requires RoundInv(c, f, s) && t < |s.th| && s.th[t].pc.Busy?
    requires S.SysInv(sys, f) && sys.d.Size() == s.sys.d.Size() && Record(sys, Raised(s), s.log)
    requires |sys.sups| == |s.th| && forall u: nat | u < |s.th| && u != t :: sys.sups[u] == s.sys.sups[u]
    ensures RoundInv(c, f, s.(sys := sys))
  {
    assert Raised(s.(sys := sys)) <==> Raised(s);
  }

  lemma AdvanceReady(c: Cfg, f: Graph, s: State, t: nat)
    requires RoundInv(c, f, s) && Able(c, s, t) && s.th[t].pc.Busy?
    ensures S.SysInv(s.sys, f) && Record(s.sys, Raised(s), s.log) && |s.sys.sups| == |s.th|
    ensures s.sys.sups[t].Merging? ==> MergeInRange(s.sys.d.Size(), s.sys.sups[t].m)
  {
  }

  lemma AdvanceOnly(c: Cfg, s: State, t: nat, ch: Choice)
    requires Able(c, s, t) && s.th[t].pc.Busy? && !s.sys.sups[t].Idle?
    ensures s.sys.sups[t].Merging? ==> MergeInRange(s.sys.d.Size(), s.sys.sups[t].m)
    ensures Step(c, s, t, ch) == s.(sys := S.Advance(s.sys, t, ch))
  {
  }

  lemma AdvanceStep(c: Cfg, f: Graph, s: State, t: nat, ch: Choice)
    requires RoundInv(c, f, s) && Able(c, s, t) && s.th[t].pc.Busy? && !s.sys.sups[t].Idle?
    ensures RoundInv(c, f, Step(c, s, t, ch)) && Evolves(s.sys.d, Step(c, s, t, ch).sys.d)
  {
    AdvanceReady(c, f, s, t);
    AdvanceSys(f, s.sys, Raised(s), s.log, t, ch);
    SysStepKeeps(c, f, s, S.Advance(s.sys, t, ch), t);
    AdvanceOnly(c, s, t, ch);
  }

  lemma LeaveWalk(c: Cfg, f: Graph, s: State, t: nat, fin: bool)
    requires RoundInv(c, f, s) && t < |s.th| && s.th[t].pc == Busy(fin)
    ensures Walk(c, Leave(c, s, t, fin).th, s.slots, s.log)
  {
    assert ThrInv(c, t, s.th[t]);
    LeaveKeeps(c, t, s.th[t], fin);
    QuietStep(c, s.th, s.slots, s.log, t, LeftThr(c, s.th[t], fin));
  }

  lemma LeaveHandy(c: Cfg, s: State, t: nat, fin: bool)
    requires Handy(s) && t < |s.th| && s.sys.sups[t].Idle?
    ensures Handy(Leave(c, s, t, fin)) && (Raised(Leave(c, s, t, fin)) <==> Raised(s))
  {
    RaisedUpdate(s, Leave(c, s, t, fin), t);
  }

  lemma LeaveOnly(c: Cfg, s: State, t: nat, ch: Choice)
    requires Able(c, s, t) && s.th[t].pc.Busy? && s.sys.sups[t].Idle?
    ensures Step(c, s, t, ch) == Leave(c, s, t, s.th[t].pc.fin)
  {
  }

  lemma LeaveInv(c: Cfg, f: Graph, s: State, t: nat, fin: bool)
    requires RoundInv(c, f, s) && t < |s.th| && s.th[t].pc == Busy(fin) && |s.sys.sups| == |s.th| && s.sys.sups[t].Idle?
    ensures RoundInv(c, f, Leave(c, s, t, fin))
  {
    LeaveWalk(c, f, s, t, fin);
    LeaveHandy(c, s, t, fin);
  }

  lemma LeaveStep(c: Cfg, f: Graph, s: State, t: nat, ch: Choice)
    requires RoundInv(c, f, s) && Able(c, s, t) && s.th[t].pc.Busy? && s.sys.sups[t].Idle?
    ensures RoundInv(c, f, Step(c, s, t, ch)) && Step(c, s, t, ch).sys.d == s.sys.d
  {
    LeaveOnly(c, s, t, ch);
    LeaveInv(c, f, s, t, s.th[t].pc.fin);
  }

  /** Every step of every thread keeps the invariant, and the sets only grow. */
  lemma StepKeeps(c: Cfg, f: Graph, s: State, t: nat, ch: Choice)
    requires RoundInv(c, f, s) && t < |s.th| && !s.th[t].pc.Done?
    ensures Able(c, s, t)
    ensures RoundInv(c, f, Step(c, s, t, ch)) && Evolves(s.sys.d, Step(c, s, t, ch).sys.d)
  {
    StepReady(c, f, s, t);
    AbleStepKeeps(c, f, s, t, ch);
  }

  lemma AbleStepKeeps(c: Cfg, f: Graph, s: State, t: nat, ch: Choice)
    requires RoundInv(c, f, s) && Able(c, s, t) && !s.th[t].pc.Done?
    ensures RoundInv(c, f, Step(c, s, t, ch)) && Evolves(s.sys.d, Step(c, s, t, ch).sys.d)
  {
    EvolvesSame(s.sys.d);
    match s.th[t].pc {
      case Scan => ScanStep(c, f, s, t, ch);
      case NeedCount(_) => NeedStep(c, f, s, t, ch);
      case MergeSlot(_, _) => MergeStepKeeps(c, f, s, t, ch);
      case TakeLocal(_) => TakeLocalStep(c, f, s, t, ch);
      case TakeSlot(_, _) => TakeSlotStep(c, f, s, t, ch);
      case Busy(_) =>
        if s.sys.sups[t].Idle? {
          LeaveStep(c, f, s, t, ch);
        } else {
          AdvanceStep(c, f, s, t, ch);
        }
    }
  }

  // The beginning and the end

  function StartState(c: Cfg, d: Dsu, f: Graph): State
    requires c.Shaped() && forall t: nat | t < c.j.Threads() :: c.j.lo[t] < |c.mi|
  {
    State(S.StartSys(d, f, c.j.Threads()), StartThrs(c), StartSlots(c), [], false)
  }

  lemma StartInv(c: Cfg, d: Dsu, f: Graph)
    requires c.Valid() && S.ForestOf(d, f) && d.Size() == c.N()
    ensures forall t: nat | t < c.j.Threads() :: c.j.lo[t] < |c.mi|
    ensures RoundInv(c, f, StartState(c, d, f))
  {
    WalkStart(c);
    S.StartKeeps(d, f, c.j.Threads());
    RecordStart(d, f, c.j.Threads());
    assert !Raised(StartState(c, d, f));
  }

  lemma EntriesRight(c: Cfg, e: Entry)
    requires c.Valid() && EntryOk(c, e)
    ensures EntryRight(c.p, c.vs, c.round, c.mi, e)
  {
  }

  lemma LogReported(c: Cfg, th: seq<Thr>, slots: seq<Slot>, log: seq<Entry>)
    requires Walk(c, th, slots, log) && forall t: nat | t < |th| :: th[t].pc.Done?
    ensures Reported(c.p, c.vs, c.round, c.mi, log)
  {
    forall a: nat | a < |log|
      ensures EntryRight(c.p, c.vs, c.round, c.mi, log[a])
    {
      EntriesRight(c, log[a]);
    }
    forall k: nat | k < |c.mi|
      ensures Logged(log, c.mi[k].root)
    {
      WalkEnd(c, th, slots, log, k);
    }
  }

  /**
   * When all threads have left the parallel region, every component has been sampled
   * exactly once, on exactly its members' sketches, and every outcome had its effect.
   */
  lemma RoundEnd(c: Cfg, d: Dsu, f: Graph, s: State)
    requires RoundInv(c, f, s) && Evolves(d, s.sys.d) && forall t: nat | t < |s.th| :: s.th[t].pc.Done?
    ensures c.p.Valid() && RoundOk(c.p, c.vs, c.round, c.mi, d, f, s.sys, s.except, s.log)
  {
    LogReported(c, s.th, s.slots, s.log);
    assert Raised(s) <==> s.except;
  }

  // Termination

  /** Bounds the steps thread t still takes outside sample_supernode. */
  function ThrMeasure(c: Cfg, t: nat, x: Thr): nat
    requires t + 1 < |c.j.lo|
  {
    Stage(x.pc) + (if x.i < c.j.lo[t + 1] then 20 * (c.j.lo[t + 1] - x.i) else 0) + if x.base < x.i then 10 else 0
  }

  function ThrMeasures(c: Cfg, th: seq<Thr>): seq<nat>
    requires |th| < |c.j.lo|
  {
    seq(|th|, t requires 0 <= t < |th| => ThrMeasure(c, t, th[t]))
  }

  lemma ThrDrops(c: Cfg, th: seq<Thr>, t: nat, y: Thr)
    requires t < |th| < |c.j.lo| && ThrMeasure(c, t, y) < ThrMeasure(c, t, th[t])
    ensures Total(ThrMeasures(c, th[t := y])) < Total(ThrMeasures(c, th))
  {
    assert ThrMeasures(c, th[t := y]) == ThrMeasures(c, th)[t := ThrMeasure(c, t, y)];
    TotalUpdate(ThrMeasures(c, th), t, ThrMeasure(c, t, y));
  }

  lemma ScanDrops(c: Cfg, t: nat, x: Thr)
    requires c.Valid() && t < c.j.Threads() && ThrInv(c, t, x) && x.pc.Scan? && c.j.lo[t] < c.j.lo[t + 1] <= c.N()
    ensures ThrMeasure(c, t, ScanMove(c, t, x)) < ThrMeasure(c, t, x)
  {
  }

  lemma LeaveDrops(c: Cfg, t: nat, x: Thr, fin: bool)
    requires c.Valid() && t < c.j.Threads() && ThrInv(c, t, x) && x.pc == Busy(fin)
    ensures ThrMeasure(c, t, LeftThr(c, x, fin)) < ThrMeasure(c, t, x)
  {
  }

  lemma ScanStepDrops(c: Cfg, f: Graph, s: State, t: nat, ch: Choice)
    requires RoundInv(c, f, s) && Able(c, s, t) && s.th[t].pc.Scan?
    ensures |s.th| < |c.j.lo| && |Step(c, s, t, ch).th| == |s.th|
    ensures Total(ThrMeasures(c, Step(c, s, t, ch).th)) < Total(ThrMeasures(c, s.th))
  {
    StepReady(c, f, s, t);
    assert ThrInv(c, t, s.th[t]);
    ScanDrops(c, t, s.th[t]);
    ThrDrops(c, s.th, t, ScanMove(c, t, s.th[t]));
  }

  lemma LeaveStepDrops(c: Cfg, f: Graph, s: State, t: nat, ch: Choice)
    requires RoundInv(c, f, s) && Able(c, s, t) && s.th[t].pc.Busy? && s.sys.sups[t].Idle?
    ensures |s.th| < |c.j.lo| && |Step(c, s, t, ch).th| == |s.th|
    ensures Total(ThrMeasures(c, Step(c, s, t, ch).th)) < Total(ThrMeasures(c, s.th))
  {
    assert ThrInv(c, t, s.th[t]);
    LeaveDrops(c, t, s.th[t], s.th[t].pc.fin);
    ThrDrops(c, s.th, t, LeftThr(c, s.th[t], s.th[t].pc.fin));
  }

  lemma NearerDrops(c: Cfg, s: State, r: State, t: nat)
    requires t < |s.th| < |c.j.lo| && Nearer(s, r, t)
    ensures Total(ThrMeasures(c, r.th)) < Total(ThrMeasures(c, s.th))
  {
    ThrDrops(c, s.th, t, r.th[t]);
  }

  lemma StageDrops(c: Cfg, f: Graph, s: State, t: nat, ch: Choice)
    requires RoundInv(c, f, s) && Able(c, s, t)
    requires !s.th[t].pc.Scan? && !s.th[t].pc.Busy? && !s.th[t].pc.Done?
    ensures |s.th| < |c.j.lo| && |Step(c, s, t, ch).th| == |s.th|
    ensures Total(ThrMeasures(c, Step(c, s, t, ch).th)) < Total(ThrMeasures(c, s.th))
  {
    match s.th[t].pc {
      case NeedCount(_) => NeedStep(c, f, s, t, ch);
      case MergeSlot(_, _) => MergeStepKeeps(c, f, s, t, ch);
      case TakeLocal(_) => TakeLocalStep(c, f, s, t, ch);
      case TakeSlot(_, _) => TakeSlotStep(c, f, s, t, ch);
    }
    NearerDrops(c, s, Step(c, s, t, ch), t);
  }

  /** Every step but those inside sample_supernode brings its thread nearer to its end. */
  lemma StepDrops(c: Cfg, f: Graph, s: State, t: nat, ch: Choice)
    requires RoundInv(c, f, s) && Able(c, s, t) && !s.th[t].pc.Done? && !(s.th[t].pc.Busy? && !s.sys.sups[t].Idle?)
    ensures |s.th| < |c.j.lo| && |Step(c, s, t, ch).th| == |s.th|
    ensures Total(ThrMeasures(c, Step(c, s, t, ch).th)) < Total(ThrMeasures(c, s.th))
  {
    if s.th[t].pc.Scan? {
      ScanStepDrops(c, f, s, t, ch);
    } else if s.th[t].pc.Busy? {
      LeaveStepDrops(c, f, s, t, ch);
    } else {
      StageDrops(c, f, s, t, ch);
    }
  }

  // Runs

  ghost predicate Moves(c: Cfg, s: State, t: nat, ch: Choice, r: State) {
    Able(c, s, t) && !s.th[t].pc.Done? && r == Step(c, s, t, ch)
  }

  ghost function Steps(c: Cfg): (State, State) -> bool {
    (s: State, r: State) => exists t: nat, ch: Choice :: Moves(c, s, t, ch, r)
  }

  predicate Over(s: State) {
    forall t: nat | t < |s.th| :: s.th[t].pc.Done?
  }

  /** What the parallel region may leave behind, under one schedule or another. */
  ghost predicate Result(c: Cfg, d: Dsu, f: Graph, s: State) {
    && c.Shaped() && (forall t: nat | t < c.j.Threads() :: c.j.lo[t] < |c.mi|)
    && Runs.Reaches(Steps(c), StartState(c, d, f), s) && Over(s)
  }

  ghost predicate InRound(c: Cfg, d: Dsu, f: Graph, s: State) {
    RoundInv(c, f, s) && Evolves(d, s.sys.d) && |s.th| < |c.j.lo|
  }

  lemma MoveKeeps(c: Cfg, d: Dsu, f: Graph, s: State, t: nat, ch: Choice, r: State)
    requires InRound(c, d, f, s) && Moves(c, s, t, ch, r)
    ensures InRound(c, d, f, r)
    ensures ch.spurious || Total(ThrMeasures(c, r.th)) < Total(ThrMeasures(c, s.th)) ||
            (r.th == s.th && Total(S.SupMeasures(r.sys, f)) < Total(S.SupMeasures(s.sys, f)))
  {
    StepKeeps(c, f, s, t, ch);
    EvolvesTrans(d, s.sys.d, r.sys.d);
    StepProgress(c, f, s, t, ch);
  }

  /** However the region runs, it leaves every group sampled once and every sample's effect in place. */
  lemma ResultRight(c: Cfg, d: Dsu, f: Graph, s: State)
    requires c.Valid() && S.ForestOf(d, f) && d.Size() == c.N() && Result(c, d, f, s)
    ensures RoundOk(c.p, c.vs, c.round, c.mi, d, f, s.sys, s.except, s.log)
    ensures s.sys.d.Size() == d.Size()
  {
    StartIn(c, d, f);
    var inv := (x: State) => InRound(c, d, f, x);
    forall a: State, b: State | inv(a) && Steps(c)(a, b)
      ensures inv(b)
    {
      var t: nat, ch: Choice :| Moves(c, a, t, ch, b);
      MoveKeeps(c, d, f, a, t, ch, b);
    }
    Runs.ReachKeeps(Steps(c), inv, StartState(c, d, f), s);
    RoundEnd(c, d, f, s);
  }

  lemma StartIn(c: Cfg, d: Dsu, f: Graph)
    requires c.Valid() && S.ForestOf(d, f) && d.Size() == c.N()
    ensures forall t: nat | t < c.j.Threads() :: c.j.lo[t] < |c.mi|
    ensures InRound(c, d, f, StartState(c, d, f)) && Runs.Reaches(Steps(c), StartState(c, d, f), StartState(c, d, f))
  {
    StartInv(c, d, f);
    EvolvesSame(d);
    Runs.ReachesItself(Steps(c), StartState(c, d, f));
  }

  lemma OneStep(c: Cfg, d: Dsu, f: Graph, s0: State, s: State, t: nat, ch: Choice)
    requires InRound(c, d, f, s) && Runs.Reaches(Steps(c), s0, s) && t < |s.th| && !s.th[t].pc.Done?
    ensures Able(c, s, t) && Moves(c, s, t, ch, Step(c, s, t, ch)) && Runs.Reaches(Steps(c), s0, Step(c, s, t, ch))
    ensures InRound(c, d, f, Step(c, s, t, ch))
    ensures var r := Step(c, s, t, ch);
      ch.spurious || Total(ThrMeasures(c, r.th)) < Total(ThrMeasures(c, s.th)) ||
      (r.th == s.th && Total(S.SupMeasures(r.sys, f)) < Total(S.SupMeasures(s.sys, f)))
  {
    StepKeeps(c, f, s, t, ch);
    var r := Step(c, s, t, ch);
    assert Moves(c, s, t, ch, r);
    Runs.ReachesNext(Steps(c), s0, s, r);
    MoveKeeps(c, d, f, s, t, ch, r);
  }

  /** Some run reaches an end. */
  lemma SomeResult(c: Cfg, d: Dsu, f: Graph) returns (s: State)
    requires c.Valid() && S.ForestOf(d, f) && d.Size() == c.N()
    ensures Result(c, d, f, s)
  {
    StartIn(c, d, f);
    s := StartState(c, d, f);
    while !Over(s)
      invariant InRound(c, d, f, s) && Runs.Reaches(Steps(c), StartState(c, d, f), s)
      decreases Total(ThrMeasures(c, s.th)), Total(S.SupMeasures(s.sys, f))
    {
      var t: nat :| t < |s.th| && !s.th[t].pc.Done?;
      OneStep(c, d, f, StartState(c, d, f), s, t, Choice(0, false));
      s := Step(c, s, t, Choice(0, false));
    }
  }

  /**
   * A whole round under an arbitrary schedule. A compare-and-swap may fail spuriously, but
   * only finitely often; everything else is bounded by the work left.
   */
  method PerformRound(c: Cfg, d: Dsu, f: Graph, spurious: nat) returns (s: State)
    requires c.Valid() && S.ForestOf(d, f) && d.Size() == c.N()
    ensures Result(c, d, f, s)
    ensures RoundOk(c.p, c.vs, c.round, c.mi, d, f, s.sys, s.except, s.log)
    ensures s.sys.d.Size() == d.Size()
  {
    StartIn(c, d, f);
    s := StartState(c, d, f);
    var budget := spurious;
    while !Over(s)
      invariant InRound(c, d, f, s) && Runs.Reaches(Steps(c), StartState(c, d, f), s)
      decreases budget, Total(ThrMeasures(c, s.th)), Total(S.SupMeasures(s.sys, f))
    {
      var t: nat :| t < |s.th| && !s.th[t].pc.Done?;
      var pick: nat := *;
      var fails: bool := *;
      var ch := Choice(pick, fails && budget > 0);
      OneStep(c, d, f, StartState(c, d, f), s, t, ch);
      if ch.spurious {
        budget := budget - 1;
      }
      s := Step(c, s, t, ch);
    }
    ResultRight(c, d, f, s);
  }

  lemma StepProgress(c: Cfg, f: Graph, s: State, t: nat, ch: Choice)
    requires RoundInv(c, f, s) && Able(c, s, t) && !s.th[t].pc.Done? && RoundInv(c, f, Step(c, s, t, ch))
    ensures |s.th| < |c.j.lo| && |Step(c, s, t, ch).th| == |s.th|
    ensures var r := Step(c, s, t, ch);
      ch.spurious || Total(ThrMeasures(c, r.th)) < Total(ThrMeasures(c, s.th)) ||
      (r.th == s.th && Total(S.SupMeasures(r.sys, f)) < Total(S.SupMeasures(s.sys, f)))
  {
    if s.th[t].pc.Busy? && !s.sys.sups[t].Idle? {
      AdvanceOnly(c, s, t, ch);
      if !ch.spurious {
        SampleProgress(c, f, s, t, ch);
      }
    } else {
      StepDrops(c, f, s, t, ch);
    }
  }

  /** Steps inside sample_supernode bring the sample nearer to its end. */
  lemma SampleProgress(c: Cfg, f: Graph, s: State, t: nat, ch: Choice)
    requires RoundInv(c, f, s) && Able(c, s, t) && s.th[t].pc.Busy? && !s.sys.sups[t].Idle? && !ch.spurious
    requires RoundInv(c, f, Step(c, s, t, ch))
    ensures S.SysInv(s.sys, f) && S.SysInv(Step(c, s, t, ch).sys, f)
    ensures Total(S.SupMeasures(Step(c, s, t, ch).sys, f)) < Total(S.SupMeasures(s.sys, f))
  {
    InvSys(c, f, s);
    InvSys(c, f, Step(c, s, t, ch));
    AdvanceReady(c, f, s, t);
    AdvanceOnly(c, s, t, ch);
    S.SupDrops(s.sys, f, t, ch);
  }

  lemma InvSys(c: Cfg, f: Graph, s: State)
    requires RoundInv(c, f, s)
    ensures S.SysInv(s.sys, f)
  {
  }
}
