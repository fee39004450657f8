// The whole way of the stream: stream threads call pre_insert and hand both ends of every
// update to the gutters, batches go through the queue to the workers, workers merge them into
// the sketches (include/graph_sketch_driver.h, lines 150-206, include/worker_thread_group.h).

module Ingest {
  import opened Counting
  import opened Pairing
  import opened Graphs
  import opened Buckets
  import opened DsuSpec
  import opened DsuConcurrent
  import opened SketchSpec
  import opened Cuts
  import opened Delivery
  import C = ConnectedComponentsAlg
  import E = EagerDsu
  import F = Flush
  import H = FlushHistory
  import B = BoruvkaSpec
  import L = Boruvka
  import Q = QueryComplete

  /** A stream thread between updates, or with both ends or the second end of one still to hand over. */
  datatype Task = Free | First(e: Edge) | Second(e: Edge)

  /**
   * eager is what pre_insert works on, pipe the queue with its workers, vs the vertex sketches;
   * locked is update_locked.
   */
  datatype State = State(eager: E.Eager, tasks: seq<Task>, pipe: F.State, vs: seq<seq<Bucket>>, locked: bool)

  /**
   * A stream thread begins an update, works inside pre_insert, or hands one end over; a query
   * leaves an answer, right or wrong, or fails; everything else happens in the pipe.
   */
  datatype Move =
    | Toggle(t: nat, e: Edge)
    | PreInsert(t: nat, mv: E.Move)
    | Hand(t: nat)
    | Requery(x: E.Eager, fails: bool)
    | Flow(step: F.Move)

  /** A batch for one vertex. */
  predicate OneVertex(batch: seq<F.Half>, n: nat) {
    batch != [] && forall k: nat | k < |batch| :: batch[k].src == batch[0].src && batch[k].src < n && batch[k].dst < n
  }

  function Targets(batch: seq<F.Half>): (d: seq<nat>)
    ensures |d| == |batch| && forall k: nat | k < |d| :: d[k] == batch[k].dst
  {
    seq(|batch|, k requires 0 <= k < |batch| => batch[k].dst)
  }

  /** apply_update_batch: the sketch of the batch's odd indices is merged into its vertex. */
  ghost function Applied(p: Params, vs: seq<seq<Bucket>>, batch: seq<F.Half>): (r: seq<seq<Bucket>>)
    requires p.Valid() && |vs| <= NODE_LIMIT && OneVertex(batch, |vs|) && forall v: nat | v < |vs| :: |vs[v]| == p.NumBuckets()
    ensures |r| == |vs|
  {
    var src := batch[0].src;
    vs[src := Merged(vs[src], SketchOf(p, Parity(C.BatchIds(src, Targets(batch)))))]
  }

  /** The half a thread hands over next. */
  function Next(k: Task): F.Half
    requires !k.Free?
  {
    if k.First? then F.Half(k.e.src, k.e.dst) else F.Half(k.e.dst, k.e.src)
  }

  /** Enough for the next step to be defined. */
  ghost predicate Ready(p: Params, s: State) {
    && p.Valid() && |s.vs| <= NODE_LIMIT && (forall v: nat | v < |s.vs| :: |s.vs[v]| == p.NumBuckets())
    && |s.tasks| == |s.eager.ths| && E.Sane(s.eager) && s.eager.d.Size() == |s.vs| && HandsOk(s.pipe, |s.vs|)
  }

  predicate HandsOk(x: F.State, n: nat) {
    forall t: nat | t < |x.ws| && x.ws[t].pc.Working? :: OneVertex(x.ws[t].pc.batch, n)
  }

  ghost predicate Quiet(s: State) {
    forall t: nat | t < |s.tasks| :: s.tasks[t].Free?
  }

  /**
   * Another answer, as a query leaves it: nothing is said of its union-find and its forest, only
   * that the same edges have been toggled an odd number of times.
   */
  ghost predicate SameGraph(x: E.Eager, y: E.Eager) {
    && E.Sane(y) && y.d.Size() == x.d.Size() && |y.ths| == |x.ths| && (forall t: nat | t < |y.ths| :: y.ths[t].Outside?)
    && (forall e | e in y.calls :: e.src < e.dst < y.d.Size()) && (forall e: Edge :: y.calls[e] % 2 == x.calls[e] % 2)
  }

  ghost function Begin(s: State, t: nat, e: Edge): Option<State>
    requires E.Sane(s.eager) && |s.tasks| == |s.eager.ths|
  {
    if t >= |s.tasks| || !s.tasks[t].Free? || !s.eager.ths[t].Outside? then None
    else match E.Act(s.eager, t, E.Call(e))
      case None => None
      case Some(x) => Some(s.(eager := x, tasks := s.tasks[t := First(e)]))
  }

  ghost function Continue(s: State, t: nat, mv: E.Move): Option<State>
    requires E.Sane(s.eager) && |s.tasks| == |s.eager.ths|
  {
    if t >= |s.tasks| || mv.Call? then None
    else
      E.ActSane(s.eager, t, mv);
      match E.Act(s.eager, t, mv)
      case None => None
      case Some(x) => Some(s.(eager := x))
  }

  ghost function HandOver(s: State, t: nat): Option<State>
    requires |s.tasks| == |s.eager.ths|
  {
    if t >= |s.tasks| || s.tasks[t].Free? || !s.eager.ths[t].Outside? then None
    else match F.Act(s.pipe, F.Insert(Next(s.tasks[t])))
      case None => None
      case Some(x) =>
        Some(s.(pipe := x, tasks := s.tasks[t := if s.tasks[t].First? then Second(s.tasks[t].e) else Free]))
  }

  /** The worker whose step applies the batch it holds. */
  predicate Applies(s: State, mv: F.Move) {
    mv.Worker? && mv.t < |s.pipe.ws| && s.pipe.ws[mv.t].pc.Working?
  }

  /** A step of the pipe. A batch that meets the lock throws, and ends the program. */
  ghost function Run(p: Params, s: State, mv: F.Move): Option<State>
    requires Ready(p, s)
  {
    if mv.Insert? || (Applies(s, mv) && s.locked) || (mv.Spill? && !OneVertex(mv.batch, |s.vs|)) || (mv.Query? && !Quiet(s)) then None
    else match F.Act(s.pipe, mv)
      case None => None
      case Some(x) =>
        Some(s.(pipe := x, vs := if Applies(s, mv) then Applied(p, s.vs, s.pipe.ws[mv.t].pc.batch) else s.vs))
  }

  ghost function Act(p: Params, s: State, mv: Move): Option<State>
    requires Ready(p, s)
  {
    match mv
    case Toggle(t, e) => Begin(s, t, e)
    case PreInsert(t, m) => Continue(s, t, m)
    case Hand(t) => HandOver(s, t)
    case Requery(x, fails) =>
      if s.pipe.main.Rest? && Quiet(s) && SameGraph(s.eager, x) then Some(s.(eager := x, locked := fails)) else None
    case Flow(m) => Run(p, s, m)
  }

  // What every step keeps

  function Owes(k: Task, h: F.Half): nat {
    if k.Free? then 0
    else (if h == F.Half(k.e.dst, k.e.src) then 1 else 0) + if k.First? && h == F.Half(k.e.src, k.e.dst) then 1 else 0
  }

  function Debts(tasks: seq<Task>, h: F.Half): (m: seq<nat>)
    ensures |m| == |tasks|
  {
    seq(|tasks|, t requires 0 <= t < |tasks| => Owes(tasks[t], h))
  }

  /** How often h has still to be handed over. */
  function Owed(tasks: seq<Task>, h: F.Half): nat {
    Total(Debts(tasks, h))
  }

  lemma OwedUpdate(tasks: seq<Task>, t: nat, k: Task, h: F.Half)
    requires t < |tasks|
    ensures Owed(tasks[t := k], h) + Owes(tasks[t], h) == Owed(tasks, h) + Owes(k, h)
  {
    assert Debts(tasks[t := k], h) == Debts(tasks, h)[t := Owes(k, h)];
    TotalUpdate(Debts(tasks, h), t, Owes(k, h));
  }

  lemma {:induction false} NothingOwed(tasks: seq<Task>, h: F.Half)
    requires forall t: nat | t < |tasks| :: tasks[t].Free?
    ensures Owed(tasks, h) == 0
  {
    if tasks != [] {
      NothingOwed(tasks[..|tasks| - 1], h);
      assert Debts(tasks, h)[..|tasks| - 1] == Debts(tasks[..|tasks| - 1], h);
    }
  }

  predicate Proper(h: F.Half, n: nat) {
    h.src < n && h.dst < n && h.src != h.dst
  }

  /** What was handed over and what is still owed match the toggles, up to pairs. */
  predicate Balanced(s: State, h: F.Half) {
    h.src != h.dst ==> (s.pipe.inserted[h] + Owed(s.tasks, h)) % 2 == s.eager.calls[Norm(Edge(h.src, h.dst))] % 2
  }

  predicate TaskOk(k: Task, n: nat) {
    !k.Free? ==> k.e.src < n && k.e.dst < n && k.e.src != k.e.dst
  }

  /** Halves have two ends that exist, batches are for one vertex. */
  predicate PipeOk(x: F.State, n: nat) {
    && (forall h | h in x.inserted :: Proper(h, n))
    && (forall k: nat | k < |x.queue| :: OneVertex(x.queue[k], n)) && HandsOk(x, n)
  }

  predicate AllProper(s: State) {
    && PipeOk(s.pipe, |s.vs|)
    && (forall t: nat | t < |s.tasks| :: TaskOk(s.tasks[t], |s.vs|))
    && (forall e | e in s.eager.calls :: e.src < e.dst < |s.vs|)
  }

  /** Every sketch is that of the odd halves applied at its vertex. */
  ghost predicate Tracks(p: Params, s: State)
    requires p.Valid()
  {
    forall v: nat | v < |s.vs| :: s.vs[v] == SketchOf(p, OddAt(s.pipe.applied, v))
  }

  ghost predicate IngestInv(p: Params, s: State) {
    Ready(p, s) && AllProper(s) && Tracks(p, s) && forall h :: Balanced(s, h)
  }

  lemma BeginKeeps(p: Params, s: State, t: nat, e: Edge)
    requires IngestInv(p, s) && Begin(s, t, e).Some?
    ensures IngestInv(p, Begin(s, t, e).value)
  {
    var r := Begin(s, t, e).value;
    CallFacts(s.eager, t, e);
    forall h
      ensures Balanced(r, h)
    {
      BeginBalanced(s, r, t, e, h);
    }
  }

  lemma BeginBalanced(s: State, r: State, t: nat, e: Edge, h: F.Half)
    requires Balanced(s, h) && t < |s.tasks| && s.tasks[t].Free? && e.src != e.dst
    requires r.tasks == s.tasks[t := First(e)] && r.pipe == s.pipe && r.eager.calls == s.eager.calls + multiset{Norm(e)}
    ensures Balanced(r, h)
  {
    OwedUpdate(s.tasks, t, First(e), h);
  }

  lemma CallFacts(x: E.Eager, t: nat, e: Edge)
    requires E.Sane(x) && t < |x.ths| && x.ths[t].Outside? && E.Act(x, t, E.Call(e)).Some?
    ensures var y := E.Act(x, t, E.Call(e)).value;
      && E.Sane(y) && y.calls == x.calls + multiset{Norm(e)} && |y.ths| == |x.ths| && y.d.Size() == x.d.Size()
    ensures e.src < x.d.Size() && e.dst < x.d.Size() && e.src != e.dst
  {
    E.ActSane(x, t, E.Call(e));
  }

  lemma ContinueKeeps(p: Params, s: State, t: nat, mv: E.Move)
    requires IngestInv(p, s) && Continue(s, t, mv).Some?
    ensures IngestInv(p, Continue(s, t, mv).value)
  {
    var r := Continue(s, t, mv).value;
    E.ActSane(s.eager, t, mv);
    OutsideCalls(s.eager, t, mv);
    forall h
      ensures Balanced(r, h)
    {
      assert Balanced(s, h);
    }
  }

  /** Work inside pre_insert toggles nothing more. */
  lemma OutsideCalls(x: E.Eager, t: nat, mv: E.Move)
    requires E.Sane(x) && t < |x.ths| && !mv.Call?
    ensures x.ths[t].Merging? ==> MergeInRange(x.d.Size(), x.ths[t].m)
    ensures E.Act(x, t, mv).Some? ==>
      var y := E.Act(x, t, mv).value; y.calls == x.calls && |y.ths| == |x.ths| && y.d.Size() == x.d.Size()
  {
    E.ActSane(x, t, mv);
  }

  lemma HandKeeps(p: Params, s: State, t: nat)
    requires IngestInv(p, s) && HandOver(s, t).Some?
    ensures IngestInv(p, HandOver(s, t).value)
  {
    var r := HandOver(s, t).value;
    var x := Next(s.tasks[t]);
    assert TaskOk(s.tasks[t], |s.vs|);
    assert r.pipe.inserted == s.pipe.inserted + multiset{x};
    forall h
      ensures Balanced(r, h)
    {
      assert Balanced(s, h);
      OwedUpdate(s.tasks, t, r.tasks[t], h);
    }
  }

  lemma RequeryKeeps(p: Params, s: State, x: E.Eager, fails: bool)
    requires IngestInv(p, s) && Act(p, s, Requery(x, fails)).Some?
    ensures IngestInv(p, Act(p, s, Requery(x, fails)).value)
  {
    var r := Act(p, s, Requery(x, fails)).value;
    forall h
      ensures Balanced(r, h)
    {
      assert Balanced(s, h);
    }
  }

  /** Merging a batch moves every sketch as the odd halves move. */
  lemma AppliedTracks(p: Params, s: State, batch: seq<F.Half>)
    requires Ready(p, s) && Tracks(p, s) && OneVertex(batch, |s.vs|)
    ensures forall v: nat | v < |s.vs| ::
      Applied(p, s.vs, batch)[v] == SketchOf(p, OddAt(s.pipe.applied + multiset(batch), v))
  {
    var src, dsts := batch[0].src, Targets(batch);
    assert BatchHalves(src, dsts) == batch;
    forall v: nat | v < |s.vs|
      ensures Applied(p, s.vs, batch)[v] == SketchOf(p, OddAt(s.pipe.applied + multiset(batch), v))
    {
      BatchTracks(s.pipe.applied, src, dsts, v);
      MergeIsSymDiff(p, OddAt(s.pipe.applied, v), Parity(C.BatchIds(src, dsts)));
    }
  }

  lemma WorkerPipe(x: F.State, n: nat, t: nat)
    requires PipeOk(x, n) && t < |x.ws| && F.WorkerMove(x, t).Some?
    ensures var y := F.WorkerMove(x, t).value;
      && PipeOk(y, n) && y.inserted == x.inserted
      && y.applied == if x.ws[t].pc.Working? then x.applied + multiset(x.ws[t].pc.batch) else x.applied
  {
  }

  lemma DriverPipe(x: F.State, n: nat, mv: F.Move)
    requires PipeOk(x, n) && !mv.Worker? && !mv.Insert? && (mv.Spill? ==> OneVertex(mv.batch, n)) && F.Act(x, mv).Some?
    ensures var y := F.Act(x, mv).value; PipeOk(y, n) && y.inserted == x.inserted && y.applied == x.applied
  {
    var y := F.Act(x, mv).value;
    forall k: nat | k < |y.queue|
      ensures OneVertex(y.queue[k], n)
    {
      assert k < |x.queue| ==> y.queue[k] == x.queue[k];
    }
    forall t: nat | t < |y.ws|
      ensures y.ws[t].pc == x.ws[t].pc
    {
    }
  }

  lemma PipeKeeps(x: F.State, n: nat, mv: F.Move)
    requires PipeOk(x, n) && !mv.Insert? && (mv.Spill? ==> OneVertex(mv.batch, n)) && F.Act(x, mv).Some?
    ensures var y := F.Act(x, mv).value;
      && PipeOk(y, n) && y.inserted == x.inserted
      && y.applied == if mv.Worker? && x.ws[mv.t].pc.Working? then x.applied + multiset(x.ws[mv.t].pc.batch) else x.applied
  {
    if mv.Worker? {
      WorkerPipe(x, n, mv.t);
    } else {
      DriverPipe(x, n, mv);
    }
  }

  lemma RunTracks(p: Params, s: State, mv: F.Move)
    requires Ready(p, s) && Tracks(p, s) && PipeOk(s.pipe, |s.vs|) && Run(p, s, mv).Some?
    ensures var r := Run(p, s, mv).value; Tracks(p, r) && |r.vs| == |s.vs| && forall v: nat | v < |r.vs| :: |r.vs[v]| == p.NumBuckets()
  {
    PipeKeeps(s.pipe, |s.vs|, mv);
    if Applies(s, mv) {
      AppliedTracks(p, s, s.pipe.ws[mv.t].pc.batch);
    }
  }

  lemma RunKeeps(p: Params, s: State, mv: F.Move)
    requires IngestInv(p, s) && Run(p, s, mv).Some?
    ensures IngestInv(p, Run(p, s, mv).value)
  {
    var r := Run(p, s, mv).value;
    RunTracks(p, s, mv);
    PipeKeeps(s.pipe, |s.vs|, mv);
    BalancedStays(s, r);
  }

  /** Nothing handed over, nothing owed and nothing toggled. */
  lemma BalancedStays(s: State, r: State)
    requires (forall h :: Balanced(s, h)) && r.pipe.inserted == s.pipe.inserted && r.tasks == s.tasks && r.eager == s.eager
    ensures forall h :: Balanced(r, h)
  {
    forall h
      ensures Balanced(r, h)
    {
      assert Balanced(s, h);
    }
  }

  lemma ActKeeps(p: Params, s: State, mv: Move)
    requires IngestInv(p, s) && Act(p, s, mv).Some?
    ensures IngestInv(p, Act(p, s, mv).value)
  {
    match mv
    case Toggle(t, e) => BeginKeeps(p, s, t, e);
    case PreInsert(t, m) => ContinueKeeps(p, s, t, m);
    case Hand(t) => HandKeeps(p, s, t);
    case Requery(x, fails) => RequeryKeeps(p, s, x, fails);
    case Flow(m) => RunKeeps(p, s, m);
  }

  /** While a query runs, or after one has failed, no sketch changes until another query has ended. */
  lemma LockedSketches(p: Params, s: State, mv: Move)
    requires IngestInv(p, s) && s.locked && Act(p, s, mv).Some? && !mv.Requery?
    ensures var r := Act(p, s, mv).value; r.vs == s.vs && r.locked && r.pipe.applied == s.pipe.applied
  {
    match mv
    case Flow(m) => PipeKeeps(s.pipe, |s.vs|, m);
    case _ =>
  }

  // Whole runs

  /** Nothing streamed yet. */
  function Start(p: Params, prio: seq<nat>, streams: nat, workers: nat): State {
    State(E.Begin(Singletons(prio), {}, {}, streams), seq(streams, _ => Free), F.Init(workers), seq(|prio|, _ => Zeros(p)), false)
  }

  lemma StartInv(p: Params, prio: seq<nat>, streams: nat, workers: nat)
    requires p.Valid() && |prio| <= NODE_LIMIT
    ensures IngestInv(p, Start(p, prio, streams, workers))
  {
    var s := Start(p, prio, streams, workers);
    SingletonsSpanned(prio);
    E.BeginInv(Singletons(prio), {}, {}, streams);
    ZerosSketchNothing(p);
    forall v: nat | v < |s.vs|
      ensures s.vs[v] == SketchOf(p, OddAt(s.pipe.applied, v))
    {
      assert OddAt(s.pipe.applied, v) == {};
    }
    forall h
      ensures Balanced(s, h)
    {
      NothingOwed(s.tasks, h);
    }
  }

  /** The states of a run, one more than its moves. */
  ghost predicate IsRun(p: Params, run: seq<State>, moves: seq<Move>) {
    |run| == |moves| + 1 && forall i: nat | i < |moves| :: Steps(p, run[i], moves[i], run[i + 1])
  }

  ghost predicate Steps(p: Params, s: State, mv: Move, r: State) {
    Ready(p, s) && Act(p, s, mv) == Some(r)
  }

  /** The step a move is in the pipe, if any. */
  function PipeStep(s: State, mv: Move): seq<F.Move> {
    match mv
    case Hand(t) => if t < |s.tasks| && !s.tasks[t].Free? then [F.Insert(Next(s.tasks[t]))] else []
    case Flow(m) => [m]
    case _ => []
  }

  function PipeMoves(run: seq<State>, moves: seq<Move>): seq<F.Move>
    requires |run| == |moves| + 1
  {
    if moves == [] then [] else
    var m := |moves| - 1;
    PipeMoves(run[..m + 1], moves[..m]) + PipeStep(run[m], moves[m])
  }

  lemma PipeActs(p: Params, s: State, mv: Move, r: State, s0: F.State, done: seq<F.Move>)
    requires Steps(p, s, mv, r) && F.After(s0, done) == Some(s.pipe)
    ensures F.After(s0, done + PipeStep(s, mv)) == Some(r.pipe)
  {
    var next := PipeStep(s, mv);
    PipeStepActs(p, s, mv, r);
    if next == [] {
      assert done + next == done;
    } else {
      F.AfterSnoc(s0, done, next[0]);
      assert done + next == done + [next[0]];
    }
  }

  lemma PipeStepActs(p: Params, s: State, mv: Move, r: State)
    requires Steps(p, s, mv, r)
    ensures var next := PipeStep(s, mv);
      if next == [] then r.pipe == s.pipe else |next| == 1 && F.Act(s.pipe, next[0]) == Some(r.pipe)
  {
  }

  lemma {:induction false} EveryRun(p: Params, run: seq<State>, moves: seq<Move>, prio: seq<nat>, streams: nat, workers: nat)
    requires p.Valid() && |prio| <= NODE_LIMIT && IsRun(p, run, moves) && run[0] == Start(p, prio, streams, workers)
    ensures IngestInv(p, run[|moves|]) && F.After(F.Init(workers), PipeMoves(run, moves)) == Some(run[|moves|].pipe)
    ensures |run[|moves|].vs| == |prio|
    decreases |moves|
  {
    if moves == [] {
      StartInv(p, prio, streams, workers);
    } else {
      var m := |moves| - 1;
      RunPrefix(p, run, moves);
      EveryRun(p, run[..m + 1], moves[..m], prio, streams, workers);
      RunStep(p, run[m], moves[m], run[m + 1], F.Init(workers), PipeMoves(run[..m + 1], moves[..m]));
    }
  }

  lemma RunPrefix(p: Params, run: seq<State>, moves: seq<Move>)
    requires IsRun(p, run, moves) && moves != []
    ensures var m := |moves| - 1; IsRun(p, run[..m + 1], moves[..m]) && Steps(p, run[m], moves[m], run[m + 1])
  {
    var m := |moves| - 1;
    forall i: nat | i < m
      ensures Steps(p, run[..m + 1][i], moves[..m][i], run[..m + 1][i + 1])
    {
      assert Steps(p, run[i], moves[i], run[i + 1]);
    }
  }

  lemma RunStep(p: Params, s: State, mv: Move, r: State, s0: F.State, done: seq<F.Move>)
    requires IngestInv(p, s) && Steps(p, s, mv, r) && F.After(s0, done) == Some(s.pipe)
    ensures IngestInv(p, r) && |r.vs| == |s.vs| && F.After(s0, done + PipeStep(s, mv)) == Some(r.pipe)
  {
    ActKeeps(p, s, mv);
    PipeActs(p, s, mv, r, s0, done);
  }

  /** With all threads between updates and every half applied, the sketches are those of the graph. */
  lemma AllApplied(p: Params, s: State)
    requires IngestInv(p, s) && Quiet(s) && s.pipe.applied == s.pipe.inserted
    ensures Flushed(p, E.NetOf(s.eager.calls), s.vs)
  {
    forall h: F.Half | h.src != h.dst
      ensures s.pipe.applied[h] % 2 == s.eager.calls[Norm(Edge(h.src, h.dst))] % 2
    {
      assert Balanced(s, h);
      NothingOwed(s.tasks, h);
    }
    var halves := seq(|s.vs|, v requires 0 <= v => OddAt(s.pipe.applied, v));
    DeliveredMeansFlushed(p, s.vs, halves, s.pipe.applied, s.eager.calls);
  }

  /**
   * The promise of the ingestion: when a flush that can be relied on has returned and the stream
   * threads are done, the sketches are exactly those of the graph that pre_insert has seen.
   */
  lemma ReliableFlushDelivers(p: Params, run: seq<State>, moves: seq<Move>, prio: seq<nat>, streams: nat, workers: nat)
    requires p.Valid() && |prio| <= NODE_LIMIT && IsRun(p, run, moves) && run[0] == Start(p, prio, streams, workers)
    requires workers > 0 && run[|moves|].pipe.main.Rest? && Quiet(run[|moves|])
    requires !H.Risky(H.Calls(PipeMoves(run, moves)))
    ensures Flushed(p, E.NetOf(run[|moves|].eager.calls), run[|moves|].vs)
  {
    var s := run[|moves|];
    EveryRun(p, run, moves, prio, streams, workers);
    H.EveryRunTracked(workers, PipeMoves(run, moves), s.pipe);
    H.CalmRuns(workers, PipeMoves(run, moves), s.pipe);
    H.CalmComplete(s.pipe);
    AllApplied(p, s);
  }

  /** A run of the whole ingestion, its stream done and its last flush one that can be relied on. */
  ghost predicate Streamed(p: Params, run: seq<State>, moves: seq<Move>, prio: seq<nat>, streams: nat, workers: nat) {
    && p.Valid() && 0 < |prio| <= NODE_LIMIT && IsRun(p, run, moves) && run[0] == Start(p, prio, streams, workers)
    && workers > 0 && run[|moves|].pipe.main.Rest? && Quiet(run[|moves|])
    && !H.Risky(H.Calls(PipeMoves(run, moves)))
  }

  /**
   * From the stream to the answer: after such a run, whatever earlier queries made of their
   * answers, a query on honest checksums that ends normally has found the components of the
   * streamed graph, unless an edge joins two sets that its last round both filed wrongly.
   */
  lemma StreamedQueryRight(p: Params, run: seq<State>, moves: seq<Move>, prio: seq<nat>, streams: nat, workers: nat,
                           trail: seq<B.Round>)
    requires Streamed(p, run, moves, prio, streams, workers) && B.IsTrail(p, run[|moves|].vs, prio, trail)
    requires var g := E.NetOf(run[|moves|].eager.calls); Simple(g, NODE_LIMIT) && B.SoundTrail(p, g, trail)
    requires var last := trail[|trail| - 1];
      !last.except && !last.s.modified && B.Covered(last, E.NetOf(run[|moves|].eager.calls))
    ensures Spans(trail[|trail| - 1].s.d, E.NetOf(run[|moves|].eager.calls))
  {
    EveryRun(p, run, moves, prio, streams, workers);
    ReliableFlushDelivers(p, run, moves, prio, streams, workers);
    B.TrailComplete(p, run[|moves|].vs, E.NetOf(run[|moves|].eager.calls), prio, trail);
  }

  /** With one thread or up to eleven vertices no edge does. */
  lemma StreamedQuerySure(p: Params, run: seq<State>, moves: seq<Move>, prio: seq<nat>, streams: nat, workers: nat,
                          threads: nat, trail: seq<B.Round>)
    requires Streamed(p, run, moves, prio, streams, workers) && B.IsTrail(p, run[|moves|].vs, prio, trail)
    requires L.Grouped(threads, trail) && (threads == 1 || |prio| <= 11)
    requires var g := E.NetOf(run[|moves|].eager.calls); Simple(g, NODE_LIMIT) && B.SoundTrail(p, g, trail)
    requires !trail[|trail| - 1].except && !trail[|trail| - 1].s.modified
    ensures Spans(trail[|trail| - 1].s.d, E.NetOf(run[|moves|].eager.calls))
  {
    EveryRun(p, run, moves, prio, streams, workers);
    ReliableFlushDelivers(p, run, moves, prio, streams, workers);
    Q.EndsRight(p, run[|moves|].vs, E.NetOf(run[|moves|].eager.calls), prio, threads, trail);
  }
}
