// perform_boruvka_round for rounds after the first (src/cc_sketch_alg.cpp, lines 246-380):
// every thread walks its partition of the instructions, samples the components that lie
// inside it, and hands the ends of the others to the slot of their last thread.

module Round {
  import opened Counting
  import opened Buckets
  import opened SketchSpec
  import opened Partition
  import opened Jobs
  import opened RoundSpec
  import opened DsuConcurrent
  import opened SampleLog

  /** Where a thread stands; fin marks the component its partition ends with. */
  datatype Pc =
    | Scan
    | NeedCount(g: nat)
    | MergeSlot(g: nat, fin: bool)
    | TakeLocal(fin: bool)
    | TakeSlot(g: nat, fin: bool)
    | Busy(fin: bool)
    | Done

  /** base..i is the part of the current component scanned so far; left is root_from_left. */
  datatype Thr = Thr(base: nat, i: nat, left: bool, acc: SketchVal, pc: Pc, failed: bool)

  /**
   * GlobalMergeData. needed is None while num_merge_needed is still -1. from, reader and
   * read record which threads merged in, who saw query_ready, and whether it sampled.
   */
  datatype Slot = Slot(sk: SketchVal, needed: Option<nat>, done: nat, from: set<nat>, reader: Option<nat>, read: bool)

  // The steps

  /** One turn of the scanning loop, or what follows it (lines 290-343). */
  function ScanMove(c: Cfg, t: nat, x: Thr): Thr
    requires c.Shaped() && t < c.j.Threads() && c.j.lo[t] < c.j.lo[t + 1] <= |c.mi|
    requires x.base < |c.mi| && x.i <= |c.mi| && |x.acc.bks| == c.p.NumBuckets()
  {
    if x.i < c.j.lo[t + 1] then
      if c.mi[x.i].root == c.mi[x.base].root then
        x.(acc := RangeMerged(c.p, x.acc, c.vs[c.mi[x.i].child], c.round, 1), i := x.i + 1)
      else if x.left then x.(pc := MergeSlot(t, false))
      else x.(pc := TakeLocal(false))
    else if ExitsRight(c, c.j.lo[t + 1]) || x.left then
      var g := c.j.owner[LastIndex(c.mi, c.mi[x.base].root, c.j.lo[t])];
      x.(pc := if x.left then MergeSlot(g, true) else NeedCount(g))
    else x.(pc := TakeLocal(true))
  }

  /** Under the slot's lock: merge_global (lines 212-220). */
  function MergedSlot(c: Cfg, t: nat, x: Thr, slot: Slot): Slot
    requires c.p.Valid() && |x.acc.bks| == |slot.sk.bks| == c.p.NumBuckets()
  {
    var done := slot.done + 1;
    var ready := slot.needed.Some? && done >= slot.needed.value;
    slot.(sk := RangeMerged(c.p, slot.sk, x.acc.bks, c.round, 1), done := done, from := slot.from + {t},
          reader := if ready then Some(t) else slot.reader)
  }

  function MergedThr(x: Thr, slot: Slot): Thr
    requires x.pc.MergeSlot?
  {
    var ready := slot.needed.Some? && slot.done + 1 >= slot.needed.value;
    x.(pc := if ready then TakeSlot(x.pc.g, x.pc.fin) else Busy(x.pc.fin))
  }

  function SampledThr(x: Thr, fin: bool, o: Outcome): Thr {
    x.(pc := Busy(fin), failed := x.failed || o.OutOfSamples?)
  }

  /** The next component of the partition, or the end of the parallel region. */
  function LeftThr(c: Cfg, x: Thr, fin: bool): Thr {
    if fin then x.(pc := Done)
    else Thr(x.i, x.i, false, SketchVal(Zeros(c.p), 0), Scan, x.failed)
  }

  function StartThr(c: Cfg, t: nat): Thr
    requires c.Shaped() && t < c.j.Threads() && c.j.lo[t] < |c.mi|
  {
    Thr(c.j.lo[t], c.j.lo[t], FromLeft(c, c.j.lo[t]), SketchVal(Zeros(c.p), 0), Scan, false)
  }

  function StartSlot(c: Cfg): Slot {
    Slot(SketchVal(Zeros(c.p), 0), None, 0, {}, None, false)
  }

  // Invariants of the walk

  /** Positions of partition t below this have been handed over or sampled. */
  function Handed(x: Thr): nat {
    if x.pc.TakeSlot? || x.pc.Busy? || x.pc.Done? then x.i else x.base
  }

  ghost predicate ThrInv(c: Cfg, t: nat, x: Thr)
    requires c.Indexed() && t < c.j.Threads()
  {
    && c.j.lo[t] <= x.base <= x.i <= c.j.lo[t + 1] <= c.N() && x.base < c.j.lo[t + 1]
    && (forall k | x.base <= k < x.i :: c.Root(k) == c.Root(x.base))
    && (x.base == c.j.lo[t] || c.Root(x.base - 1) != c.Root(x.base))
    && x.left == FromLeft(c, x.base) && |x.acc.bks| == c.p.NumBuckets()
    && (x.pc.Scan? || Run(c, t, x.base, x.i))
    && (Handed(x) == x.base ==> c.Holds(x.acc, c.Kids(x.base, x.i)))
    && match x.pc
       case Scan => true
       case NeedCount(g) => x.i == c.j.lo[t + 1] && !x.left && g == c.Tail(x.base) && c.Head(x.base) < g
       case MergeSlot(g, fin) => fin == (x.i == c.j.lo[t + 1]) && g == c.Tail(x.base) && c.Head(x.base) < g
       case TakeLocal(fin) => fin == (x.i == c.j.lo[t + 1]) && c.Head(x.base) == c.Tail(x.base)
       case TakeSlot(g, fin) => fin == (x.i == c.j.lo[t + 1]) && g == c.Tail(x.base) && c.Head(x.base) < g
       case Busy(fin) => fin == (x.i == c.j.lo[t + 1])
       case Done => x.i == c.j.lo[t + 1]
  }

  /** The positions of slot g's component that lie in the partitions of the given threads. */
  ghost function Places(c: Cfg, g: nat, from: set<nat>): set<nat>
    requires c.Indexed() && g < c.j.Threads() && IsSlot(c, g)
  {
    set k | k in Range(c.First(c.j.lo[g]), c.Last(c.j.lo[g]) + 1) && c.j.owner[k] in from
  }

  /** The vertices that those threads have merged into the slot. */
  ghost function Given(c: Cfg, g: nat, from: set<nat>): set<nat>
    requires c.Indexed() && g < c.j.Threads() && IsSlot(c, g)
  {
    c.KidsAt(Places(c, g, from))
  }

  ghost predicate IsReader(th: seq<Thr>, g: nat, t: nat)
    requires t < |th|
  {
    th[t].pc.TakeSlot? && th[t].pc.g == g
  }

  /** Thread t has merged its part of slot g's component exactly when it is past it. */
  ghost predicate Contributed(c: Cfg, th: seq<Thr>, slot: Slot, g: nat, t: nat)
    requires c.Indexed() && |th| == c.j.Threads() && g < c.j.Threads() && IsSlot(c, g) && t < |th|
  {
    if HeadOf(c, g) <= t <= g then t in slot.from <==> Handed(th[t]) > Portion(c, g, t)
    else t !in slot.from
  }

  ghost predicate Contributions(c: Cfg, th: seq<Thr>, slot: Slot, g: nat)
    requires c.Indexed() && |th| == c.j.Threads() && g < c.j.Threads() && IsSlot(c, g)
  {
    forall t: nat | t < |th| :: Contributed(c, th, slot, g, t)
  }

  ghost predicate Needs(c: Cfg, g: nat, slot: Slot, x: Thr)
    requires c.Indexed() && g < c.j.Threads() && IsSlot(c, g)
  {
    && (slot.needed.None? || slot.needed.value == g + 1 - HeadOf(c, g))
    && (HeadOf(c, g) in slot.from || (x.pc.MergeSlot? && x.pc.g == g) ==> slot.needed.Some?)
  }

  /** One thread sees query_ready, once all have merged, and only it reads the slot. */
  ghost predicate ReadersOk(c: Cfg, th: seq<Thr>, slot: Slot, g: nat)
    requires c.Indexed() && |th| == c.j.Threads() && g < c.j.Threads() && IsSlot(c, g) && HeadOf(c, g) < g
  {
    && (slot.reader.Some? <==> |slot.from| >= g + 1 - HeadOf(c, g))
    && (slot.reader.Some? ==> slot.reader.value < |th| && (slot.read || IsReader(th, g, slot.reader.value)))
    && (slot.read ==> slot.reader.Some?)
    && (forall t: nat | t < |th| && IsReader(th, g, t) :: slot.reader == Some(t) && !slot.read)
  }

  ghost predicate SlotInv(c: Cfg, th: seq<Thr>, slot: Slot, g: nat)
    requires c.Indexed() && |th| == c.j.Threads() && g < c.j.Threads() && IsSlot(c, g) && HeadOf(c, g) < g
  {
    && |slot.sk.bks| == c.p.NumBuckets()
    && (forall t | t in slot.from :: t < |th|)
    && Contributions(c, th, slot, g)
    && slot.done == |slot.from|
    && Needs(c, g, slot, th[HeadOf(c, g)])
    && (!slot.read ==> c.Holds(slot.sk, Given(c, g, slot.from)))
    && ReadersOk(c, th, slot, g)
  }

  /** The component at k has been sampled. */
  ghost predicate Taken(c: Cfg, th: seq<Thr>, slots: seq<Slot>, k: nat)
    requires c.Indexed() && |th| == |slots| == c.j.Threads() && k < c.N()
  {
    if c.Head(k) == c.Tail(k) then Handed(th[c.Head(k)]) > c.First(k) else slots[c.Tail(k)].read
  }

  ghost predicate EntryOk(c: Cfg, e: Entry)
    requires c.p.Valid()
  {
    exists k: nat :: k < c.N() && c.Root(k) == e.root && e.outcome == c.Expected(k)
  }

  ghost predicate LogTells(c: Cfg, th: seq<Thr>, slots: seq<Slot>, log: seq<Entry>)
    requires c.Indexed() && |th| == |slots| == c.j.Threads()
  {
    forall k: nat | k < c.N() :: Logged(log, c.Root(k)) <==> Taken(c, th, slots, k)
  }

  /** Every entry is the expected answer of its component, no component has two. */
  ghost predicate LogInv(c: Cfg, th: seq<Thr>, slots: seq<Slot>, log: seq<Entry>)
    requires c.Indexed() && c.p.Valid() && |th| == |slots| == c.j.Threads()
  {
    && OncePerRoot(log) && (forall a: nat | a < |log| :: EntryOk(c, log[a]))
    && LogTells(c, th, slots, log)
  }

  ghost predicate Threads(c: Cfg, th: seq<Thr>) {
    c.Valid() && |th| == c.j.Threads() && forall t: nat | t < |th| :: ThrInv(c, t, th[t])
  }

  ghost predicate SlotOk(c: Cfg, th: seq<Thr>, slots: seq<Slot>, g: nat)
    requires c.Indexed() && |th| == |slots| == c.j.Threads() && g < |slots|
  {
    IsSlot(c, g) ==> HeadOf(c, g) < g && SlotInv(c, th, slots[g], g)
  }

  ghost predicate Slots(c: Cfg, th: seq<Thr>, slots: seq<Slot>) {
    c.Valid() && |th| == |slots| == c.j.Threads() && forall g: nat | g < |slots| :: SlotOk(c, th, slots, g)
  }

  ghost predicate Walk(c: Cfg, th: seq<Thr>, slots: seq<Slot>, log: seq<Entry>) {
    Threads(c, th) && Slots(c, th, slots) && LogInv(c, th, slots, log)
  }

  // Steps that hand nothing over

  lemma ScanMerges(c: Cfg, t: nat, x: Thr)
    requires c.Valid() && t < c.j.Threads() && ThrInv(c, t, x) && x.pc.Scan? && c.j.lo[t] < c.j.lo[t + 1] <= c.N()
    requires x.i < c.j.lo[t + 1] && c.mi[x.i].root == c.mi[x.base].root
    ensures ThrInv(c, t, ScanMove(c, t, x))
  {
    HoldsVertex(c, x.acc, x.base, x.i);
  }

  lemma ScanStops(c: Cfg, t: nat, x: Thr)
    requires c.Valid() && t < c.j.Threads() && ThrInv(c, t, x) && x.pc.Scan? && c.j.lo[t] < c.j.lo[t + 1] <= c.N()
    requires x.i == c.j.lo[t + 1] || c.mi[x.i].root != c.mi[x.base].root
    ensures ThrInv(c, t, ScanMove(c, t, x))
    ensures var y := ScanMove(c, t, x); !y.pc.TakeSlot? && (y.pc.MergeSlot? ==> c.Head(y.base) < t)
  {
    assert Run(c, t, x.base, x.i);
    RunEnds(c, t, x.base, x.i);
    SearchFindsTail(c, t, x.base);
  }

  /** The binary search leads every thread to the slot of the component's last thread. */
  lemma SearchFindsTail(c: Cfg, t: nat, base: nat)
    requires c.Valid() && t < c.j.Threads() && c.j.lo[t] <= base < c.N()
    ensures LastIndex(c.mi, c.Root(base), c.j.lo[t]) < c.N()
    ensures c.j.owner[LastIndex(c.mi, c.Root(base), c.j.lo[t])] == c.Tail(base)
  {
    forall i: nat, k: nat | i < k < |c.mi|
      ensures c.mi[i].root <= c.mi[k].root
    {
      assert c.InOrder(i, k);
    }
    LastIndexRight(c.mi, base, c.j.lo[t]);
  }

  /** A turn of the loop keeps a thread's own invariant and hands nothing over. */
  lemma ScanKeeps(c: Cfg, t: nat, x: Thr)
    requires c.Valid() && t < c.j.Threads() && ThrInv(c, t, x) && x.pc.Scan?
    ensures c.j.lo[t] < c.j.lo[t + 1] <= c.N()
    ensures var y := ScanMove(c, t, x);
      && ThrInv(c, t, y) && Handed(y) == Handed(x)
      && !y.pc.TakeSlot? && (y.pc.MergeSlot? ==> c.Head(y.base) < t)
  {
    OwnerBounds(c, t);
    if x.i < c.j.lo[t + 1] && c.mi[x.i].root == c.mi[x.base].root {
      ScanMerges(c, t, x);
    } else {
      ScanStops(c, t, x);
    }
  }

  lemma SlotFrame(c: Cfg, th: seq<Thr>, y: Thr, slot: Slot, g: nat, t: nat)
    requires c.Valid() && |th| == c.j.Threads() && g < c.j.Threads() && IsSlot(c, g) && HeadOf(c, g) < g
    requires SlotInv(c, th, slot, g) && t < |th|
    requires forall u: nat | HeadOf(c, g) <= u <= g && u == t :: Handed(y) > Portion(c, g, u) <==> Handed(th[t]) > Portion(c, g, u)
    requires !IsReader(th, g, t) && !(y.pc.TakeSlot? && y.pc.g == g)
    requires y.pc.MergeSlot? && y.pc.g == g && t == HeadOf(c, g) ==> slot.needed.Some?
    ensures SlotInv(c, th[t := y], slot, g)
  {
    var th' := th[t := y];
    forall u: nat | u < |th'|
      ensures Contributed(c, th', slot, g, u)
    {
      assert Contributed(c, th, slot, g, u);
    }
    if slot.reader.Some? && !slot.read {
      assert IsReader(th', g, slot.reader.value);
    }
    forall u: nat | u < |th'| && IsReader(th', g, u)
      ensures slot.reader == Some(u) && !slot.read
    {
      assert IsReader(th, g, u);
    }
  }

  /** The same components have been sampled before and after. */
  ghost predicate TakenSame(c: Cfg, th: seq<Thr>, slots: seq<Slot>, th': seq<Thr>, slots': seq<Slot>)
    requires c.Indexed() && |th| == |th'| == |slots| == |slots'| == c.j.Threads()
  {
    forall k: nat | k < c.N() :: Taken(c, th', slots', k) <==> Taken(c, th, slots, k)
  }

  /** Exactly the component at k has been sampled in between. */
  ghost predicate TakenPlus(c: Cfg, th: seq<Thr>, slots: seq<Slot>, th': seq<Thr>, slots': seq<Slot>, k: nat)
    requires c.Indexed() && |th| == |th'| == |slots| == |slots'| == c.j.Threads() && k < c.N()
  {
    && !Taken(c, th, slots, k)
    && forall m: nat | m < c.N() :: Taken(c, th', slots', m) <==> Taken(c, th, slots, m) || c.Root(m) == c.Root(k)
  }

  lemma LogFrame(c: Cfg, th: seq<Thr>, th': seq<Thr>, slots: seq<Slot>, slots': seq<Slot>, log: seq<Entry>)
    requires c.Valid() && |th| == |th'| == |slots| == |slots'| == c.j.Threads() && LogInv(c, th, slots, log)
    requires TakenSame(c, th, slots, th', slots')
    ensures LogInv(c, th', slots', log)
  {
  }

  lemma ThreadsUpdate(c: Cfg, th: seq<Thr>, t: nat, y: Thr)
    requires Threads(c, th) && t < |th| && ThrInv(c, t, y)
    ensures Threads(c, th[t := y])
  {
  }

  lemma WalkFrame(c: Cfg, th: seq<Thr>, slots: seq<Slot>, slots': seq<Slot>, log: seq<Entry>, t: nat, y: Thr)
    requires Threads(c, th) && t < |th| && ThrInv(c, t, y) && Slots(c, th[t := y], slots') && |slots| == |slots'|
    requires LogInv(c, th, slots, log) && TakenSame(c, th, slots, th[t := y], slots')
    ensures Walk(c, th[t := y], slots', log)
  {
    ThreadsUpdate(c, th, t, y);
    LogFrame(c, th, th[t := y], slots, slots', log);
  }

  lemma QuietSlots(c: Cfg, th: seq<Thr>, slots: seq<Slot>, t: nat, y: Thr)
    requires Slots(c, th, slots) && t < |th| && ThrInv(c, t, y) && Handed(y) == Handed(th[t])
    requires !th[t].pc.TakeSlot? && !y.pc.TakeSlot?
    requires y.pc.MergeSlot? ==> c.Head(y.base) < t
    ensures Slots(c, th[t := y], slots)
  {
    var th' := th[t := y];
    forall g: nat | g < |slots|
      ensures SlotOk(c, th', slots, g)
    {
      assert SlotOk(c, th, slots, g);
      if IsSlot(c, g) {
        if y.pc.MergeSlot? && y.pc.g == g {
          RunSlot(c, t, y.base, y.i);
        }
        SlotFrame(c, th, y, slots[g], g, t);
      }
    }
  }

  lemma QuietTaken(c: Cfg, th: seq<Thr>, slots: seq<Slot>, t: nat, y: Thr)
    requires c.Valid() && |th| == |slots| == c.j.Threads() && t < |th| && Handed(y) == Handed(th[t])
    ensures TakenSame(c, th, slots, th[t := y], slots)
  {
  }

  /** A step that moves no position across and leaves the slots alone. */
  lemma QuietStep(c: Cfg, th: seq<Thr>, slots: seq<Slot>, log: seq<Entry>, t: nat, y: Thr)
    requires Walk(c, th, slots, log) && t < |th| && ThrInv(c, t, y) && Handed(y) == Handed(th[t])
    requires !th[t].pc.TakeSlot? && !y.pc.TakeSlot?
    requires y.pc.MergeSlot? ==> c.Head(y.base) < t
    ensures Walk(c, th[t := y], slots, log)
  {
    QuietSlots(c, th, slots, t, y);
    QuietTaken(c, th, slots, t, y);
    WalkFrame(c, th, slots, slots, log, t, y);
  }

  // Setting num_merge_needed (lines 337-342)

  lemma NeedSlots(c: Cfg, th: seq<Thr>, slots: seq<Slot>, t: nat, g: nat, y: Thr)
    requires Slots(c, th, slots) && t < |th| && g < |slots| && IsSlot(c, g) && HeadOf(c, g) == t
    requires th[t].pc == NeedCount(g) && y == th[t].(pc := MergeSlot(g, true)) && t <= g
    ensures Slots(c, th[t := y], NeededSlots(slots, t, g))
  {
    var th', slots' := th[t := y], NeededSlots(slots, t, g);
    forall h: nat | h < |slots'|
      ensures SlotOk(c, th', slots', h)
    {
      assert SlotOk(c, th, slots, h);
      if h == g {
        SlotFrameNeeded(c, th, slots[g], g, t);
        SlotFrame(c, th, y, slots'[g], g, t);
      } else if IsSlot(c, h) {
        SlotFrame(c, th, y, slots[h], h, t);
      }
    }
  }

  function NeededSlots(slots: seq<Slot>, t: nat, g: nat): seq<Slot>
    requires t <= g < |slots|
  {
    slots[g := slots[g].(needed := Some(g - t + 1))]
  }

  lemma NeedThr(c: Cfg, t: nat, x: Thr, g: nat)
    requires c.Valid() && t < c.j.Threads() && ThrInv(c, t, x) && x.pc == NeedCount(g)
    ensures t <= g < c.j.Threads() && IsSlot(c, g) && HeadOf(c, g) == t
    ensures ThrInv(c, t, x.(pc := MergeSlot(g, true)))
  {
    RunEnds(c, t, x.base, x.i);
    RunSlot(c, t, x.base, x.i);
  }

  lemma NeedTaken(c: Cfg, th: seq<Thr>, slots: seq<Slot>, t: nat, g: nat, y: Thr)
    requires c.Valid() && |th| == |slots| == c.j.Threads() && t < |th| && t <= g < |slots| && Handed(y) == Handed(th[t])
    ensures TakenSame(c, th, slots, th[t := y], NeededSlots(slots, t, g))
  {
  }

  lemma NeedKeeps(c: Cfg, th: seq<Thr>, slots: seq<Slot>, log: seq<Entry>, t: nat, g: nat)
    requires Walk(c, th, slots, log) && t < |th| && th[t].pc == NeedCount(g)
    ensures t <= g < |slots| && Walk(c, th[t := th[t].(pc := MergeSlot(g, true))], NeededSlots(slots, t, g), log)
  {
    assert ThrInv(c, t, th[t]);
    var y := th[t].(pc := MergeSlot(g, true));
    NeedThr(c, t, th[t], g);
    NeedSlots(c, th, slots, t, g, y);
    NeedTaken(c, th, slots, t, g, y);
    WalkFrame(c, th, slots, NeededSlots(slots, t, g), log, t, y);
  }

  lemma SlotFrameNeeded(c: Cfg, th: seq<Thr>, slot: Slot, g: nat, t: nat)
    requires c.Valid() && |th| == c.j.Threads() && g < c.j.Threads() && IsSlot(c, g) && HeadOf(c, g) < g
    requires SlotInv(c, th, slot, g) && t == HeadOf(c, g)
    ensures SlotInv(c, th, slot.(needed := Some(g - t + 1)), g)
  {
    var s := slot.(needed := Some(g - t + 1));
    forall u: nat | u < |th|
      ensures Contributed(c, th, s, g, u)
    {
      assert Contributed(c, th, slot, g, u);
    }
  }

  // Merging into a slot

  lemma GivenGrows(c: Cfg, t: nat, base: nat, i: nat, g: nat, from: set<nat>)
    requires c.Valid() && t < c.j.Threads() && Run(c, t, base, i) && c.Head(base) < c.Tail(base) == g && t !in from
    ensures g < c.j.Threads() && IsSlot(c, g) && i <= c.N()
    ensures Given(c, g, from + {t}) == Given(c, g, from) + c.Kids(base, i)
    ensures Given(c, g, from) !! c.Kids(base, i) && c.Kids(base, i) != {}
  {
    RunSlot(c, t, base, i);
    RunEnds(c, t, base, i);
    OwnerBounds(c, t);
    var s := c.j.lo[g];
    SameBlock(c, base, s);
    forall k: nat
      ensures k in Range(c.First(s), c.Last(s) + 1) && c.j.owner[k] == t <==> base <= k < i
    {
      RunPositions(c, t, base, i, k);
    }
    KidsPresent(c, Range(base, i), base);
    assert Places(c, g, from + {t}) == Places(c, g, from) + Range(base, i);
    KidsUnion(c, Places(c, g, from), Range(base, i));
    KidsDisjoint(c, Places(c, g, from), Range(base, i));
  }

  lemma RunPositions(c: Cfg, t: nat, base: nat, i: nat, k: nat)
    requires c.Valid() && t < c.j.Threads() && Run(c, t, base, i)
    ensures i <= c.N()
    ensures c.First(base) <= k <= c.Last(base) && c.j.owner[k] == t <==> base <= k < i
  {
    RunEnds(c, t, base, i);
    OwnerBounds(c, t);
    if base <= k < i {
      SameBlock(c, base, k);
      OwnerIs(c, t, k);
    }
  }

  /** Every thread from the head on has contributed: the slot holds the whole component. */
  lemma GivenFull(c: Cfg, g: nat, from: set<nat>)
    requires c.Valid() && g < c.j.Threads() && IsSlot(c, g) && HeadOf(c, g) < g
    requires (forall t | t in from :: HeadOf(c, g) <= t <= g) && |from| >= g + 1 - HeadOf(c, g)
    ensures Given(c, g, from) == c.Kids(c.First(c.j.lo[g]), c.Last(c.j.lo[g]) + 1)
  {
    var f := HeadOf(c, g);
    RangeCard(f, g + 1);
    FullSubset(from, Range(f, g + 1));
    PortionInside(c, g, g);
    var s := c.j.lo[g];
    forall k | k in Range(c.First(s), c.Last(s) + 1)
      ensures c.j.owner[k] in from
    {
      OwnerMono(c, c.First(s), k);
      OwnerMono(c, k, c.Last(s));
    }
  }

  lemma OtherPortion(c: Cfg, t: nat, base: nat, i: nat, h: nat)
    requires c.Valid() && t < c.j.Threads() && Run(c, t, base, i) && h < c.j.Threads() && IsSlot(c, h)
    requires HeadOf(c, h) <= t <= h && c.Root(c.j.lo[h]) != c.Root(base)
    ensures i > Portion(c, h, t) <==> base > Portion(c, h, t)
  {
    PortionInside(c, h, t);
  }

  lemma OtherLocal(c: Cfg, t: nat, base: nat, i: nat, k: nat)
    requires c.Valid() && t < c.j.Threads() && Run(c, t, base, i) && k < c.N() && c.Root(k) != c.Root(base)
    ensures i > c.First(k) <==> base > c.First(k)
  {
    SameBlock(c, k, c.First(k));
  }

  lemma NotYetFull(c: Cfg, th: seq<Thr>, slot: Slot, g: nat, t: nat)
    requires c.Valid() && |th| == c.j.Threads() && g < c.j.Threads() && IsSlot(c, g) && HeadOf(c, g) < g
    requires SlotInv(c, th, slot, g) && HeadOf(c, g) <= t <= g && t !in slot.from
    ensures !slot.reader.Some? && !slot.read
  {
    FromInside(c, th, slot, g);
    MissingOne(slot.from, HeadOf(c, g), g + 1, t);
  }

  lemma MissingOne(from: set<nat>, lo: nat, hi: nat, t: nat)
    requires (forall u | u in from :: lo <= u < hi) && lo <= t < hi && t !in from
    ensures |from| < hi - lo
    ensures |from| + 1 == hi - lo ==> from + {t} == Range(lo, hi)
  {
    RangeCard(lo, hi);
    assert |from + {t}| == |from| + 1;
    SubsetCard(from + {t}, Range(lo, hi));
    if |from| + 1 == hi - lo {
      FullSubset(from + {t}, Range(lo, hi));
    }
  }

  lemma MergeContent(c: Cfg, slot: Slot, g: nat, t: nat, x: Thr)
    requires c.Valid() && t < c.j.Threads() && ThrInv(c, t, x) && x.pc.MergeSlot? && x.pc.g == g
    requires g < c.j.Threads() && IsSlot(c, g) && t !in slot.from && c.Holds(slot.sk, Given(c, g, slot.from))
    requires |slot.sk.bks| == c.p.NumBuckets()
    ensures c.Holds(MergedSlot(c, t, x, slot).sk, Given(c, g, slot.from + {t}))
  {
    GivenGrows(c, t, x.base, x.i, g, slot.from);
    HoldsMerge(c, slot.sk, x.acc.bks, Given(c, g, slot.from), c.Kids(x.base, x.i));
  }

  lemma MergeContributes(c: Cfg, th: seq<Thr>, slot: Slot, g: nat, t: nat)
    requires c.Valid() && |th| == c.j.Threads() && g < c.j.Threads() && IsSlot(c, g) && HeadOf(c, g) < g
    requires t < |th| && ThrInv(c, t, th[t]) && th[t].pc.MergeSlot? && th[t].pc.g == g
    requires |slot.sk.bks| == c.p.NumBuckets() && Contributions(c, th, slot, g)
    ensures HeadOf(c, g) <= t <= g && t !in slot.from
    ensures Contributions(c, th[t := MergedThr(th[t], slot)], MergedSlot(c, t, th[t], slot), g)
  {
    var x := th[t];
    RunSlot(c, t, x.base, x.i);
    assert Contributed(c, th, slot, g, t);
    var th', s := th[t := MergedThr(x, slot)], MergedSlot(c, t, x, slot);
    forall u: nat | u < |th'|
      ensures Contributed(c, th', s, g, u)
    {
      assert Contributed(c, th, slot, g, u);
    }
  }

  lemma MergeReaders(c: Cfg, th: seq<Thr>, slot: Slot, g: nat, t: nat)
    requires c.Valid() && |th| == c.j.Threads() && g < c.j.Threads() && IsSlot(c, g) && HeadOf(c, g) < g
    requires SlotInv(c, th, slot, g) && t < |th| && th[t].pc.MergeSlot? && th[t].pc.g == g
    requires t !in slot.from && HeadOf(c, g) <= t <= g && |th[t].acc.bks| == c.p.NumBuckets()
    ensures ReadersOk(c, th[t := MergedThr(th[t], slot)], MergedSlot(c, t, th[t], slot), g)
  {
    var th', s := th[t := MergedThr(th[t], slot)], MergedSlot(c, t, th[t], slot);
    NotYetFull(c, th, slot, g, t);
    MergeReader(c, th, slot, g, t);
    assert |s.from| == |slot.from| + 1;
    assert s.reader.Some? ==> IsReader(th', g, t);
    forall u: nat | u < |th'| && IsReader(th', g, u)
      ensures s.reader == Some(u) && !s.read
    {
      if u != t {
        assert IsReader(th, g, u);
      }
    }
  }

  lemma MergeOwnSlot(c: Cfg, th: seq<Thr>, slot: Slot, g: nat, t: nat)
    requires c.Valid() && |th| == c.j.Threads() && g < c.j.Threads() && IsSlot(c, g) && HeadOf(c, g) < g
    requires SlotInv(c, th, slot, g) && t < |th| && ThrInv(c, t, th[t])
    requires th[t].pc.MergeSlot? && th[t].pc.g == g
    ensures SlotInv(c, th[t := MergedThr(th[t], slot)], MergedSlot(c, t, th[t], slot), g)
  {
    MergeContributes(c, th, slot, g, t);
    MergeReaders(c, th, slot, g, t);
    NotYetFull(c, th, slot, g, t);
    MergeContent(c, slot, g, t, th[t]);
    MergeNeeds(c, th, slot, g, t);
  }

  lemma MergeNeeds(c: Cfg, th: seq<Thr>, slot: Slot, g: nat, t: nat)
    requires c.Valid() && |th| == c.j.Threads() && g < c.j.Threads() && IsSlot(c, g)
    requires t < |th| && th[t].pc.MergeSlot? && th[t].pc.g == g && |th[t].acc.bks| == |slot.sk.bks| == c.p.NumBuckets()
    requires HeadOf(c, g) < |th| && Needs(c, g, slot, th[HeadOf(c, g)])
    ensures Needs(c, g, MergedSlot(c, t, th[t], slot), th[t := MergedThr(th[t], slot)][HeadOf(c, g)])
  {
  }

  lemma FromInside(c: Cfg, th: seq<Thr>, slot: Slot, g: nat)
    requires c.Valid() && |th| == c.j.Threads() && g < c.j.Threads() && IsSlot(c, g)
    requires Contributions(c, th, slot, g) && forall t | t in slot.from :: t < |th|
    ensures forall t | t in slot.from :: HeadOf(c, g) <= t <= g
  {
    forall t | t in slot.from
      ensures HeadOf(c, g) <= t <= g
    {
      assert Contributed(c, th, slot, g, t);
    }
  }

  lemma NeededKnown(c: Cfg, th: seq<Thr>, slot: Slot, g: nat, t: nat)
    requires c.Valid() && |th| == c.j.Threads() && g < c.j.Threads() && IsSlot(c, g) && HeadOf(c, g) < g
    requires Contributions(c, th, slot, g) && (forall u | u in slot.from :: u < |th|)
    requires Needs(c, g, slot, th[HeadOf(c, g)])
    requires t < |th| && th[t].pc.MergeSlot? && th[t].pc.g == g
    requires t !in slot.from && HeadOf(c, g) <= t <= g && |slot.from| + 1 >= g + 1 - HeadOf(c, g)
    ensures slot.needed == Some(g + 1 - HeadOf(c, g))
  {
    FromInside(c, th, slot, g);
    MissingOne(slot.from, HeadOf(c, g), g + 1, t);
    assert HeadOf(c, g) in slot.from + {t};
  }

  /** query_ready is seen exactly when the last of the needed threads has merged. */
  lemma MergeReader(c: Cfg, th: seq<Thr>, slot: Slot, g: nat, t: nat)
    requires c.Valid() && |th| == c.j.Threads() && g < c.j.Threads() && IsSlot(c, g) && HeadOf(c, g) < g
    requires SlotInv(c, th, slot, g) && t < |th| && th[t].pc.MergeSlot? && th[t].pc.g == g
    requires t !in slot.from && !slot.reader.Some? && HeadOf(c, g) <= t <= g && |th[t].acc.bks| == c.p.NumBuckets()
    ensures var s := MergedSlot(c, t, th[t], slot);
      var y := MergedThr(th[t], slot);
      (s.reader.Some? <==> |slot.from| + 1 >= g + 1 - HeadOf(c, g)) &&
      (s.reader.Some? <==> y.pc.TakeSlot?) && (s.reader.Some? ==> s.reader.value == t)
  {
    if |slot.from| + 1 >= g + 1 - HeadOf(c, g) {
      NeededKnown(c, th, slot, g, t);
    }
  }

  lemma MergeSlots(c: Cfg, th: seq<Thr>, slots: seq<Slot>, t: nat, g: nat)
    requires Slots(c, th, slots) && Threads(c, th) && t < |th| && th[t].pc.MergeSlot? && th[t].pc.g == g < |slots| && IsSlot(c, g)
    ensures |slots[g].sk.bks| == |th[t].acc.bks| == c.p.NumBuckets()
    ensures Slots(c, th[t := MergedThr(th[t], slots[g])], slots[g := MergedSlot(c, t, th[t], slots[g])])
  {
    assert ThrInv(c, t, th[t]);
    var x := th[t];
    assert SlotOk(c, th, slots, g);
    var y := MergedThr(x, slots[g]);
    var th', slots' := th[t := y], slots[g := MergedSlot(c, t, x, slots[g])];
    MergeOwnSlot(c, th, slots[g], g, t);
    forall h: nat | h < |slots'|
      ensures SlotOk(c, th', slots', h)
    {
      assert SlotOk(c, th, slots, h);
      if h != g && IsSlot(c, h) {
        MergeOtherSlot(c, th, slots[h], y, t, g, h);
      }
    }
  }

  lemma MergeTakes(c: Cfg, th: seq<Thr>, slots: seq<Slot>, slots': seq<Slot>, y: Thr, t: nat, k: nat)
    requires c.Valid() && |th| == |slots| == |slots'| == c.j.Threads() && t < |th| && k < c.N()
    requires Run(c, t, th[t].base, th[t].i) && c.Head(th[t].base) < c.Tail(th[t].base)
    requires Handed(th[t]) == th[t].base && Handed(y) == th[t].i
    requires forall g: nat | g < |slots| :: slots'[g].read == slots[g].read
    ensures Taken(c, th[t := y], slots', k) <==> Taken(c, th, slots, k)
  {
    if c.Head(k) == c.Tail(k) == t {
      if c.Root(k) == c.Root(th[t].base) {
        SameBlock(c, k, th[t].base);
      } else {
        OtherLocal(c, t, th[t].base, th[t].i, k);
      }
    }
  }

  lemma MergeThr(c: Cfg, t: nat, x: Thr, slot: Slot, g: nat)
    requires c.Valid() && t < c.j.Threads() && ThrInv(c, t, x) && x.pc.MergeSlot? && x.pc.g == g
    ensures ThrInv(c, t, MergedThr(x, slot)) && Handed(MergedThr(x, slot)) == x.i && Handed(x) == x.base
    ensures Run(c, t, x.base, x.i) && c.Head(x.base) < c.Tail(x.base)
  {
  }

  lemma MergeInto(c: Cfg, t: nat, x: Thr, g: nat)
    requires c.Valid() && t < c.j.Threads() && ThrInv(c, t, x) && x.pc.MergeSlot? && x.pc.g == g
    ensures g < c.j.Threads() && IsSlot(c, g)
  {
    RunSlot(c, t, x.base, x.i);
  }

  lemma MergeTaken(c: Cfg, th: seq<Thr>, slots: seq<Slot>, slots': seq<Slot>, y: Thr, t: nat)
    requires c.Valid() && |th| == |slots| == |slots'| == c.j.Threads() && t < |th|
    requires Run(c, t, th[t].base, th[t].i) && c.Head(th[t].base) < c.Tail(th[t].base)
    requires Handed(th[t]) == th[t].base && Handed(y) == th[t].i
    requires forall g: nat | g < |slots| :: slots'[g].read == slots[g].read
    ensures TakenSame(c, th, slots, th[t := y], slots')
  {
    var th' := th[t := y];
    forall k: nat | k < c.N()
      ensures Taken(c, th', slots', k) <==> Taken(c, th, slots, k)
    {
      MergeTakes(c, th, slots, slots', y, t, k);
    }
  }

  lemma MergeWalk(c: Cfg, th: seq<Thr>, slots: seq<Slot>, slots': seq<Slot>, log: seq<Entry>, t: nat, y: Thr, slot: Slot)
    requires Threads(c, th) && t < |th| && th[t].pc.MergeSlot? && y == MergedThr(th[t], slot)
    requires Slots(c, th[t := y], slots') && |slots| == |slots'| && LogInv(c, th, slots, log)
    requires forall g: nat | g < |slots| :: slots'[g].read == slots[g].read
    ensures Walk(c, th[t := y], slots', log)
  {
    assert ThrInv(c, t, th[t]);
    MergeThr(c, t, th[t], slot, th[t].pc.g);
    MergeTaken(c, th, slots, slots', y, t);
    WalkFrame(c, th, slots, slots', log, t, y);
  }

  /** merge_global keeps the walk: the slot gains exactly this thread's part. */
  lemma MergeKeeps(c: Cfg, th: seq<Thr>, slots: seq<Slot>, log: seq<Entry>, t: nat, g: nat)
    requires Walk(c, th, slots, log) && t < |th| && th[t].pc.MergeSlot? && th[t].pc.g == g
    ensures g < |slots| && |slots[g].sk.bks| == |th[t].acc.bks| == c.p.NumBuckets()
    ensures Walk(c, th[t := MergedThr(th[t], slots[g])], slots[g := MergedSlot(c, t, th[t], slots[g])], log)
  {
    assert ThrInv(c, t, th[t]);
    MergeInto(c, t, th[t], g);
    MergeSlots(c, th, slots, t, g);
    MergeWalk(c, th, slots, slots[g := MergedSlot(c, t, th[t], slots[g])], log, t, MergedThr(th[t], slots[g]), slots[g]);
  }

  /** A run handed over leaves the slots of other components as they are. */
  lemma MergeOtherSlot(c: Cfg, th: seq<Thr>, slot: Slot, y: Thr, t: nat, g: nat, h: nat)
    requires c.Valid() && |th| == c.j.Threads() && t < |th| && Handed(th[t]) == th[t].base
    requires Run(c, t, th[t].base, th[t].i) && h < c.j.Threads() && IsSlot(c, h) && HeadOf(c, h) < h
    requires SlotInv(c, th, slot, h) && Handed(y) == th[t].i && !y.pc.MergeSlot?
    requires h == c.Tail(th[t].base) ==> c.Head(th[t].base) == h
    requires y.pc.TakeSlot? ==> y.pc.g == g && g != h
    ensures SlotInv(c, th[t := y], slot, h)
  {
    var x := th[t];
    OtherRoot(c, t, x.base, h);
    forall u: nat | HeadOf(c, h) <= u <= h && u == t
      ensures Handed(y) > Portion(c, h, u) <==> Handed(x) > Portion(c, h, u)
    {
      OtherPortion(c, t, x.base, x.i, h);
    }
    SlotFrame(c, th, y, slot, h, t);
  }

  lemma OtherRoot(c: Cfg, t: nat, base: nat, h: nat)
    requires c.Valid() && base < c.N() && h < c.j.Threads() && IsSlot(c, h) && HeadOf(c, h) < h
    requires h == c.Tail(base) ==> c.Head(base) == h
    ensures c.Root(c.j.lo[h]) != c.Root(base)
  {
    PortionInside(c, h, h);
    if c.Root(c.j.lo[h]) == c.Root(base) {
      SameBlock(c, c.j.lo[h], base);
    }
  }

  // Taking samples

  lemma LogTellsMore(c: Cfg, th: seq<Thr>, th': seq<Thr>, slots: seq<Slot>, slots': seq<Slot>, log: seq<Entry>, e: Entry, k: nat)
    requires c.Valid() && |th| == |th'| == |slots| == |slots'| == c.j.Threads() && LogTells(c, th, slots, log)
    requires k < c.N() && TakenPlus(c, th, slots, th', slots', k) && e.root == c.Root(k)
    ensures LogTells(c, th', slots', log + [e])
  {
    forall m: nat | m < c.N()
      ensures Logged(log + [e], c.Root(m)) <==> Taken(c, th', slots', m)
    {
      LoggedSnoc(log, e, c.Root(m));
      assert Logged(log, c.Root(m)) <==> Taken(c, th, slots, m);
    }
  }

  lemma EntryExpected(c: Cfg, k: nat)
    requires c.Valid() && k < c.N()
    ensures EntryOk(c, Entry(c.Root(k), c.Expected(k)))
  {
  }

  lemma LogGrows(c: Cfg, th: seq<Thr>, th': seq<Thr>, slots: seq<Slot>, slots': seq<Slot>, log: seq<Entry>, k: nat, o: Outcome)
    requires c.Valid() && |th| == |th'| == |slots| == |slots'| == c.j.Threads() && LogInv(c, th, slots, log)
    requires k < c.N() && TakenPlus(c, th, slots, th', slots', k) && o == c.Expected(k)
    ensures LogInv(c, th', slots', log + [Entry(c.Root(k), o)])
  {
    var e := Entry(c.Root(k), o);
    assert Logged(log, c.Root(k)) <==> Taken(c, th, slots, k);
    OnceMore(log, e);
    EntryExpected(c, k);
    LogTellsMore(c, th, th', slots, slots', log, e, k);
  }

  lemma TakeLocalSlots(c: Cfg, th: seq<Thr>, slots: seq<Slot>, t: nat, y: Thr)
    requires Slots(c, th, slots) && Threads(c, th) && t < |th| && th[t].pc.TakeLocal?
    requires Handed(y) == th[t].i && y.pc.Busy?
    ensures Slots(c, th[t := y], slots)
  {
    assert ThrInv(c, t, th[t]);
    RunEnds(c, t, th[t].base, th[t].i);
    var th' := th[t := y];
    forall h: nat | h < |slots|
      ensures SlotOk(c, th', slots, h)
    {
      assert SlotOk(c, th, slots, h);
      if IsSlot(c, h) {
        MergeOtherSlot(c, th, slots[h], y, t, h, h);
      }
    }
  }

  lemma TakeLocalTakes(c: Cfg, th: seq<Thr>, slots: seq<Slot>, t: nat, y: Thr, m: nat)
    requires c.Valid() && |th| == |slots| == c.j.Threads() && t < |th| && m < c.N() && ThrInv(c, t, th[t])
    requires th[t].pc.TakeLocal? && Handed(y) == th[t].i
    ensures Taken(c, th[t := y], slots, m) <==> Taken(c, th, slots, m) || c.Root(m) == c.Root(th[t].base)
    ensures !Taken(c, th, slots, th[t].base)
  {
    var x := th[t];
    RunEnds(c, t, x.base, x.i);
    if c.Root(m) == c.Root(x.base) {
      SameBlock(c, m, x.base);
    } else if c.Head(m) == c.Tail(m) == t {
      OtherLocal(c, t, x.base, x.i, m);
    }
  }

  lemma TakeLocalTaken(c: Cfg, th: seq<Thr>, slots: seq<Slot>, t: nat, y: Thr)
    requires c.Valid() && |th| == |slots| == c.j.Threads() && t < |th| && ThrInv(c, t, th[t])
    requires th[t].pc.TakeLocal? && Handed(y) == th[t].i
    ensures th[t].base < c.N() && TakenPlus(c, th, slots, th[t := y], slots, th[t].base)
  {
    var th', k := th[t := y], th[t].base;
    forall m: nat | m < c.N()
      ensures Taken(c, th', slots, m) <==> Taken(c, th, slots, m) || c.Root(m) == c.Root(k)
    {
      TakeLocalTakes(c, th, slots, t, y, m);
    }
    TakeLocalTakes(c, th, slots, t, y, k);
  }

  lemma TakeLocalThr(c: Cfg, t: nat, x: Thr)
    requires c.Valid() && t < c.j.Threads() && ThrInv(c, t, x) && x.pc.TakeLocal?
    ensures |x.acc.bks| == c.p.NumBuckets() && x.base < c.N() && Sampled(c.p, x.acc) == c.Expected(x.base)
  {
    RunEnds(c, t, x.base, x.i);
    HoldsSamples(c, x.acc, x.base);
  }

  /** A component inside one partition is sampled on exactly its members. */
  lemma TakeLocalKeeps(c: Cfg, th: seq<Thr>, slots: seq<Slot>, log: seq<Entry>, t: nat, fin: bool)
    requires Walk(c, th, slots, log) && t < |th| && th[t].pc == TakeLocal(fin)
    ensures |th[t].acc.bks| == c.p.NumBuckets() && th[t].base < c.N()
    ensures var o := Sampled(c.p, th[t].acc);
      o == c.Expected(th[t].base) &&
      Walk(c, th[t := SampledThr(th[t], fin, o)], slots, log + [Entry(c.Root(th[t].base), o)])
  {
    assert ThrInv(c, t, th[t]);
    TakeLocalThr(c, t, th[t]);
    var o := Sampled(c.p, th[t].acc);
    var y := SampledThr(th[t], fin, o);
    SampledThrInv(c, t, th[t], fin, o);
    ThreadsUpdate(c, th, t, y);
    TakeLocalSlots(c, th, slots, t, y);
    TakeLocalTaken(c, th, slots, t, y);
    LogGrows(c, th, th[t := y], slots, slots, log, th[t].base, o);
  }

  lemma TakeSlotSlots(c: Cfg, th: seq<Thr>, slots: seq<Slot>, t: nat, g: nat, y: Thr)
    requires Slots(c, th, slots) && t < |th| && g < |slots| && IsSlot(c, g) && IsReader(th, g, t)
    requires Handed(y) == Handed(th[t]) && y.pc.Busy?
    ensures Slots(c, th[t := y], ReadSlots(slots, g))
  {
    var th', slots' := th[t := y], ReadSlots(slots, g);
    forall h: nat | h < |slots'|
      ensures SlotOk(c, th', slots', h)
    {
      assert SlotOk(c, th, slots, h);
      if h == g {
        ReadSlot(c, th, slots[g], y, g, t);
      } else if IsSlot(c, h) {
        SlotFrame(c, th, y, slots[h], h, t);
      }
    }
  }

  lemma TakeSlotTakes(c: Cfg, th: seq<Thr>, slots: seq<Slot>, t: nat, g: nat, y: Thr, m: nat)
    requires c.Valid() && |th| == |slots| == c.j.Threads() && t < |th| && m < c.N() && ThrInv(c, t, th[t])
    requires th[t].pc.TakeSlot? && th[t].pc.g == g && Handed(y) == Handed(th[t]) && !slots[g].read
    ensures g < |slots|
    ensures Taken(c, th[t := y], ReadSlots(slots, g), m) <==>
            Taken(c, th, slots, m) || c.Root(m) == c.Root(th[t].base)
    ensures !Taken(c, th, slots, th[t].base)
  {
    var x := th[t];
    RunSlot(c, t, x.base, x.i);
    if c.Root(m) == c.Root(x.base) {
      SameBlock(c, m, x.base);
    } else if c.Head(m) != c.Tail(m) == g {
      TailUnique(c, m, g);
    }
  }

  lemma TakeSlotThr(c: Cfg, t: nat, x: Thr, g: nat)
    requires c.Valid() && t < c.j.Threads() && ThrInv(c, t, x) && x.pc.TakeSlot? && x.pc.g == g
    ensures g < c.j.Threads() && IsSlot(c, g) && x.base < c.N() && c.Root(x.base) == c.Root(c.j.lo[g])
  {
    RunSlot(c, t, x.base, x.i);
  }

  lemma SampledThrInv(c: Cfg, t: nat, x: Thr, fin: bool, o: Outcome)
    requires c.Valid() && t < c.j.Threads() && ThrInv(c, t, x)
    requires x.pc == TakeLocal(fin) || (x.pc.TakeSlot? && x.pc.fin == fin)
    ensures ThrInv(c, t, SampledThr(x, fin, o)) && Handed(SampledThr(x, fin, o)) == x.i
    ensures x.pc.TakeSlot? ==> Handed(x) == x.i
  {
  }

  lemma ReaderSlot(c: Cfg, th: seq<Thr>, slots: seq<Slot>, t: nat, g: nat)
    requires Slots(c, th, slots) && t < |th| && IsReader(th, g, t) && g < |slots| && IsSlot(c, g)
    ensures HeadOf(c, g) < g && !slots[g].read && |slots[g].sk.bks| == c.p.NumBuckets()
    ensures (forall u | u in slots[g].from :: HeadOf(c, g) <= u <= g) && |slots[g].from| >= g + 1 - HeadOf(c, g)
    ensures c.Holds(slots[g].sk, Given(c, g, slots[g].from))
  {
    assert SlotOk(c, th, slots, g);
    FromInside(c, th, slots[g], g);
  }

  function ReadSlots(slots: seq<Slot>, g: nat): seq<Slot>
    requires g < |slots|
  {
    slots[g := slots[g].(read := true)]
  }

  lemma TakeSlotTaken(c: Cfg, th: seq<Thr>, slots: seq<Slot>, t: nat, g: nat, y: Thr)
    requires c.Valid() && |th| == |slots| == c.j.Threads() && t < |th| && ThrInv(c, t, th[t]) && g < |slots|
    requires th[t].pc.TakeSlot? && th[t].pc.g == g && Handed(y) == Handed(th[t]) && !slots[g].read
    ensures th[t].base < c.N() && TakenPlus(c, th, slots, th[t := y], ReadSlots(slots, g), th[t].base)
  {
    var th', slots', k := th[t := y], ReadSlots(slots, g), th[t].base;
    forall m: nat | m < c.N()
      ensures Taken(c, th', slots', m) <==> Taken(c, th, slots, m) || c.Root(m) == c.Root(k)
    {
      TakeSlotTakes(c, th, slots, t, g, y, m);
    }
    TakeSlotTakes(c, th, slots, t, g, y, k);
  }

  lemma WholeSamples(c: Cfg, sk: SketchVal, x: set<nat>, k: nat)
    requires c.Valid() && k < c.N() && c.Holds(sk, x) && x == c.Kids(c.First(k), c.Last(k) + 1)
    ensures Sampled(c.p, sk) == c.Expected(k)
  {
    HoldsSamples(c, sk, k);
  }

  lemma TakeSlotAnswers(c: Cfg, sk: SketchVal, from: set<nat>, g: nat, k: nat)
    requires c.Valid() && g < c.j.Threads() && IsSlot(c, g) && HeadOf(c, g) < g
    requires (forall t | t in from :: HeadOf(c, g) <= t <= g) && |from| >= g + 1 - HeadOf(c, g)
    requires c.Holds(sk, Given(c, g, from))
    requires k < c.N() && c.Root(k) == c.Root(c.j.lo[g])
    ensures Sampled(c.p, sk) == c.Expected(k)
  {
    GivenFull(c, g, from);
    WholeSamples(c, sk, Given(c, g, from), c.j.lo[g]);
  }

  /** The one thread that saw query_ready samples the whole component. */
  lemma TakeSlotKeeps(c: Cfg, th: seq<Thr>, slots: seq<Slot>, log: seq<Entry>, t: nat, g: nat, fin: bool)
    requires Walk(c, th, slots, log) && t < |th| && th[t].pc == TakeSlot(g, fin)
    ensures g < |slots| && |slots[g].sk.bks| == c.p.NumBuckets() && th[t].base < c.N()
    ensures var o := Sampled(c.p, slots[g].sk);
      o == c.Expected(th[t].base) &&
      Walk(c, th[t := SampledThr(th[t], fin, o)], ReadSlots(slots, g), log + [Entry(c.Root(th[t].base), o)])
  {
    assert ThrInv(c, t, th[t]) && IsReader(th, g, t);
    TakeSlotThr(c, t, th[t], g);
    ReaderSlot(c, th, slots, t, g);
    TakeSlotAnswers(c, slots[g].sk, slots[g].from, g, th[t].base);
    var o := Sampled(c.p, slots[g].sk);
    var y := SampledThr(th[t], fin, o);
    SampledThrInv(c, t, th[t], fin, o);
    ThreadsUpdate(c, th, t, y);
    TakeSlotSlots(c, th, slots, t, g, y);
    TakeSlotTaken(c, th, slots, t, g, y);
    LogGrows(c, th, th[t := y], slots, ReadSlots(slots, g), log, th[t].base, o);
  }

  /** Two components that span partitions never end in the same one. */
  lemma TailUnique(c: Cfg, m: nat, g: nat)
    requires c.Valid() && m < c.N() && c.Head(m) != c.Tail(m) == g
    ensures g < c.j.Threads() && c.j.lo[g] < c.N() && c.Root(m) == c.Root(c.j.lo[g])
  {
    var f, l := c.First(m), c.Last(m);
    OwnerMono(c, f, l);
    OwnerBounds(c, g);
    assert c.Rises(c.j.owner[f] + 1, g);
    assert f < c.j.lo[c.j.owner[f] + 1];
  }

  lemma ReadSlot(c: Cfg, th: seq<Thr>, slot: Slot, y: Thr, g: nat, t: nat)
    requires c.Valid() && |th| == c.j.Threads() && g < c.j.Threads() && IsSlot(c, g) && HeadOf(c, g) < g
    requires SlotInv(c, th, slot, g) && t < |th| && IsReader(th, g, t)
    requires Handed(y) == Handed(th[t]) && y.pc.Busy?
    ensures SlotInv(c, th[t := y], slot.(read := true), g)
  {
    var th', s := th[t := y], slot.(read := true);
    forall u: nat | u < |th'|
      ensures Contributed(c, th', s, g, u)
    {
      assert Contributed(c, th, slot, g, u);
    }
    forall u: nat | u < |th'|
      ensures !IsReader(th', g, u)
    {
      if u != t {
        assert IsReader(th', g, u) <==> IsReader(th, g, u);
      }
    }
  }

  lemma LeaveKeeps(c: Cfg, t: nat, x: Thr, fin: bool)
    requires c.Valid() && t < c.j.Threads() && ThrInv(c, t, x) && x.pc == Busy(fin)
    ensures ThrInv(c, t, LeftThr(c, x, fin)) && Handed(LeftThr(c, x, fin)) == Handed(x)
  {
    if !fin {
      HoldsNothing(c);
      assert c.Kids(x.i, x.i) == {};
    }
  }

  // The beginning and the end

  lemma StartThrInv(c: Cfg, t: nat)
    requires c.Valid() && t < c.j.Threads()
    ensures c.j.lo[t] < |c.mi| && ThrInv(c, t, StartThr(c, t))
  {
    OwnerBounds(c, t);
    HoldsNothing(c);
    assert c.Kids(c.j.lo[t], c.j.lo[t]) == {};
  }

  function StartThrs(c: Cfg): (th: seq<Thr>)
    requires c.Shaped() && forall t: nat | t < c.j.Threads() :: c.j.lo[t] < |c.mi|
    ensures |th| == c.j.Threads() && forall t: nat | t < |th| :: th[t] == StartThr(c, t)
  {
    seq(c.j.Threads(), t requires 0 <= t < c.j.Threads() => StartThr(c, t))
  }

  function StartSlots(c: Cfg): (slots: seq<Slot>)
    requires c.Shaped()
    ensures |slots| == c.j.Threads() && forall g: nat | g < |slots| :: slots[g] == StartSlot(c)
  {
    seq(c.j.Threads(), _ => StartSlot(c))
  }

  lemma StartTaken(c: Cfg, th: seq<Thr>, slots: seq<Slot>, k: nat)
    requires c.Valid() && |th| == |slots| == c.j.Threads() && k < c.N()
    requires forall t: nat | t < |th| :: Handed(th[t]) == c.j.lo[t]
    requires forall g: nat | g < |slots| :: !slots[g].read
    ensures !Taken(c, th, slots, k)
  {
  }

  lemma StartThreads(c: Cfg)
    requires c.Valid()
    ensures forall t: nat | t < c.j.Threads() :: c.j.lo[t] < |c.mi|
    ensures Threads(c, StartThrs(c))
  {
    forall t: nat | t < c.j.Threads()
      ensures c.j.lo[t] < |c.mi| && ThrInv(c, t, StartThr(c, t))
    {
      StartThrInv(c, t);
    }
  }

  lemma StartSlotsOk(c: Cfg, th: seq<Thr>)
    requires c.Valid() && |th| == c.j.Threads()
    requires forall t: nat | t < |th| :: th[t].pc.Scan? && th[t].base == c.j.lo[t]
    ensures Slots(c, th, StartSlots(c))
  {
    var slots := StartSlots(c);
    forall g: nat | g < |slots|
      ensures SlotOk(c, th, slots, g)
    {
      if IsSlot(c, g) {
        StartSlotInv(c, th, g);
      }
    }
  }

  lemma StartLog(c: Cfg, th: seq<Thr>, slots: seq<Slot>)
    requires c.Valid() && |th| == |slots| == c.j.Threads()
    requires forall t: nat | t < |th| :: Handed(th[t]) == c.j.lo[t]
    requires forall g: nat | g < |slots| :: !slots[g].read
    ensures LogInv(c, th, slots, [])
  {
    forall k: nat | k < c.N()
      ensures !Taken(c, th, slots, k)
    {
      StartTaken(c, th, slots, k);
    }
  }

  lemma WalkStart(c: Cfg)
    requires c.Valid()
    ensures forall t: nat | t < c.j.Threads() :: c.j.lo[t] < |c.mi|
    ensures Walk(c, StartThrs(c), StartSlots(c), [])
  {
    StartThreads(c);
    var th := StartThrs(c);
    StartSlotsOk(c, th);
    StartLog(c, th, StartSlots(c));
  }

  lemma StartSlotInv(c: Cfg, th: seq<Thr>, g: nat)
    requires c.Valid() && |th| == c.j.Threads() && g < c.j.Threads() && IsSlot(c, g)
    requires forall t: nat | t < |th| :: th[t].pc.Scan? && th[t].base == c.j.lo[t]
    ensures HeadOf(c, g) < g && SlotInv(c, th, StartSlot(c), g)
  {
    var s := c.j.lo[g];
    SameBlock(c, s, s - 1);
    OwnerBounds(c, g);
    OwnerMono(c, c.First(s), s);
    assert c.j.lo[c.j.owner[c.First(s)]] <= c.First(s);
    HoldsNothing(c);
    assert Given(c, g, {}) == {};
    forall t: nat | t < |th|
      ensures Contributed(c, th, StartSlot(c), g, t)
    {
    }
  }

  lemma SpanningSlot(c: Cfg, k: nat)
    requires c.Valid() && k < c.N() && c.Head(k) != c.Tail(k)
    ensures c.Tail(k) < c.j.Threads() && IsSlot(c, c.Tail(k))
  {
    var g := c.Tail(k);
    TailUnique(c, k, g);
    OwnerMono(c, c.First(k), c.Last(k));
    OwnerBounds(c, g);
    var s := c.j.lo[g];
    SameBlock(c, k, s);
    assert c.Rises(c.Head(k) + 1, g);
    assert c.First(k) < c.j.lo[c.Head(k) + 1];
    assert c.Root(s - 1) == c.Root(s);
  }

  lemma DoneContributed(c: Cfg, th: seq<Thr>, slot: Slot, g: nat, t: nat)
    requires c.Valid() && |th| == c.j.Threads() && g < c.j.Threads() && IsSlot(c, g)
    requires HeadOf(c, g) <= t <= g && ThrInv(c, t, th[t]) && th[t].pc.Done? && Contributed(c, th, slot, g, t)
    ensures t in slot.from
  {
    PortionInside(c, g, t);
  }

  lemma AllContributed(c: Cfg, th: seq<Thr>, slot: Slot, g: nat)
    requires Threads(c, th) && g < c.j.Threads() && IsSlot(c, g) && HeadOf(c, g) < g && SlotInv(c, th, slot, g)
    requires forall t: nat | t < |th| :: th[t].pc.Done?
    ensures slot.read
  {
    var f := HeadOf(c, g);
    forall t | t in Range(f, g + 1)
      ensures t in slot.from
    {
      assert Contributed(c, th, slot, g, t);
      assert ThrInv(c, t, th[t]);
      DoneContributed(c, th, slot, g, t);
    }
    RangeCard(f, g + 1);
    SubsetCard(Range(f, g + 1), slot.from);
  }

  lemma LocalTaken(c: Cfg, th: seq<Thr>, slots: seq<Slot>, k: nat)
    requires Threads(c, th) && |th| == |slots| && k < c.N() && c.Head(k) == c.Tail(k) && th[c.Head(k)].pc.Done?
    ensures Taken(c, th, slots, k)
  {
    assert ThrInv(c, c.Head(k), th[c.Head(k)]);
  }

  lemma SpanningTaken(c: Cfg, th: seq<Thr>, slots: seq<Slot>, k: nat)
    requires Threads(c, th) && Slots(c, th, slots) && k < c.N() && c.Head(k) != c.Tail(k)
    requires forall t: nat | t < |th| :: th[t].pc.Done?
    ensures Taken(c, th, slots, k)
  {
    SpanningSlot(c, k);
    assert SlotOk(c, th, slots, c.Tail(k));
    AllContributed(c, th, slots[c.Tail(k)], c.Tail(k));
  }

  /** When every thread is done every component has been sampled. */
  lemma WalkEnd(c: Cfg, th: seq<Thr>, slots: seq<Slot>, log: seq<Entry>, k: nat)
    requires Walk(c, th, slots, log) && k < c.N() && forall t: nat | t < |th| :: th[t].pc.Done?
    ensures Logged(log, c.Root(k))
  {
    if c.Head(k) == c.Tail(k) {
      LocalTaken(c, th, slots, k);
    } else {
      SpanningTaken(c, th, slots, k);
    }
  }
}
