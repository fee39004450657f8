// When a flush can be relied on, told from what the driver did and nothing else
// (include/worker_thread_group.h, include/graph_sketch_driver.h).

module FlushHistory {
  import opened Counting
  import opened DsuConcurrent
  import opened Flush

  /** The driver's own moves of a run, in order. */
  function Calls(moves: seq<Move>): seq<Move> {
    if moves == [] then [] else
    var m := |moves| - 1;
    if moves[m].Worker? then Calls(moves[..m]) else Calls(moves[..m]) + [moves[m]]
  }

  predicate AtRest(h: seq<Move>) {
    h == [] || h[|h| - 1] == Check
  }

  /** The workers were last resumed, from rest, after an earlier flush. */
  predicate Later(h: seq<Move>) {
    h != [] && (
      var m := |h| - 1;
      if h[m] == Resume && AtRest(h[..m]) then m > 0 else Later(h[..m]))
  }

  /** Something has been streamed since the workers were last resumed from rest. */
  predicate Streamed(h: seq<Move>) {
    h != [] && (
      var m := |h| - 1;
      h[m].Insert? || (!(h[m] == Resume && AtRest(h[..m])) && Streamed(h[..m])))
  }

  lemma CallsSnoc(moves: seq<Move>, mv: Move)
    ensures Calls(moves + [mv]) == if mv.Worker? then Calls(moves) else Calls(moves) + [mv]
  {
    assert (moves + [mv])[..|moves|] == moves;
  }

  // What every run keeps

  /** What the driver's position says about workers and gutters. */
  predicate Phase(s: State) {
    match s.main
    case Rest =>
      s.gutter == multiset{} &&
      if s.flushes == 0 then s.inserted == multiset{}
      else s.nonBlock && forall t: nat | t < |s.ws| :: s.ws[t].pc.Asleep? && s.ws[t].paused && s.ws[t].doPause
    case Pausing(i) => s.nonBlock && i <= |s.ws| && forall t: nat | t < i :: s.ws[t].doPause
    case Waiting => s.nonBlock && forall t: nat | t < |s.ws| :: s.ws[t].doPause
    case _ => true
  }

  ghost predicate Tracked(s: State, h: seq<Move>) {
    Inv(s) && Phase(s) && (s.main.Rest? <==> AtRest(h)) && (s.flushes > 0 <==> Check in h)
  }

  lemma WorkerPhase(s: State, t: nat)
    requires Tidy(s) && Phase(s) && t < |s.ws| && WorkerMove(s, t).Some?
    requires s.main.Rest? && s.flushes == 0 ==> Untouched(s) && s.queue == []
    ensures Phase(WorkerMove(s, t).value)
  {
  }

  lemma DriverPhase(s: State, mv: Move)
    requires Tidy(s) && Phase(s) && !mv.Worker? && Act(s, mv).Some?
    ensures Phase(Act(s, mv).value)
  {
    if mv == Check {
      assert forall t: nat | t < |s.ws| :: s.ws[t].paused;
    }
  }

  lemma QueuedMeansInserted(s: State)
    requires Conserved(s) && Tidy(s) && s.queue != []
    ensures s.inserted != multiset{}
  {
    var h := s.queue[0][0];
    QueuedSome(s.queue);
    assert Placed(s, h);
    assert s.inserted[h] > 0;
  }

  lemma TrackedWorker(s: State, h: seq<Move>, t: nat)
    requires Tracked(s, h) && Act(s, Move.Worker(t)).Some?
    ensures Tracked(Act(s, Move.Worker(t)).value, h)
  {
    ActKeeps(s, Move.Worker(t));
    if s.queue != [] {
      QueuedMeansInserted(s);
    }
    WorkerPhase(s, t);
  }

  lemma TrackedDriver(s: State, h: seq<Move>, mv: Move)
    requires Tracked(s, h) && !mv.Worker? && Act(s, mv).Some?
    ensures Tracked(Act(s, mv).value, h + [mv])
  {
    ActKeeps(s, mv);
    DriverPhase(s, mv);
    RestStep(s, h, mv);
  }

  lemma RestStep(s: State, h: seq<Move>, mv: Move)
    requires !mv.Worker? && Act(s, mv).Some? && (s.main.Rest? <==> AtRest(h)) && (s.flushes > 0 <==> Check in h)
    ensures var r := Act(s, mv).value; (r.main.Rest? <==> AtRest(h + [mv])) && (r.flushes > 0 <==> Check in h + [mv])
  {
    assert (h + [mv])[|h|] == mv;
  }

  /** The last move of a run. */
  lemma LastMove(s0: State, moves: seq<Move>)
    requires moves != [] && After(s0, moves).Some?
    ensures var m := |moves| - 1;
      After(s0, moves[..m]).Some? && Act(After(s0, moves[..m]).value, moves[m]) == After(s0, moves)
  {
  }

  lemma {:induction false} EveryRunTracked(threads: nat, moves: seq<Move>, r: State)
    requires After(Init(threads), moves) == Some(r)
    ensures Tracked(r, Calls(moves)) && |r.ws| == threads
  {
    if moves == [] {
      InitInv(threads);
    } else {
      LastMove(Init(threads), moves);
      var m := |moves| - 1;
      var s := After(Init(threads), moves[..m]).value;
      EveryRunTracked(threads, moves[..m], s);
      TrackedMove(s, Calls(moves[..m]), moves[m], r);
    }
  }

  lemma TrackedMove(s: State, h: seq<Move>, mv: Move, r: State)
    requires Tracked(s, h) && Act(s, mv) == Some(r)
    ensures Tracked(r, if mv.Worker? then h else h + [mv]) && |r.ws| == |s.ws|
  {
    if mv.Worker? {
      TrackedWorker(s, h, mv.t);
    } else {
      TrackedDriver(s, h, mv);
    }
  }

  // What resuming restores

  /** Neither told to pause nor marked as paused. */
  predicate Clear(w: Worker) {
    !w.doPause && !w.paused
  }

  /** Resuming clears worker after worker, and finally lets them wait for the queue again. */
  predicate Resumed(s: State) {
    match s.main
    case Resuming(i, half) =>
      && i <= |s.ws| && (half ==> i < |s.ws|)
      && forall t: nat | t < |s.ws| :: !s.ws[t].pc.Locking? &&
           if t < i then Clear(s.ws[t])
           else if t == i && half then !s.ws[t].doPause
           else Clear(s.ws[t]) || (s.ws[t].pc.Asleep? && s.ws[t].doPause)
    case Streaming => !s.nonBlock && forall t: nat | t < |s.ws| :: !s.ws[t].pc.Locking? && Clear(s.ws[t])
    case _ => true
  }

  lemma ResumedWorker(s: State, t: nat)
    requires Resumed(s) && t < |s.ws| && WorkerMove(s, t).Some?
    ensures Resumed(WorkerMove(s, t).value)
  {
    var r := WorkerMove(s, t).value;
    assert forall u: nat | u < |s.ws| && u != t :: r.ws[u] == s.ws[u];
    match s.ws[t].pc
    case Getting =>
    case Working(_) =>
    case Failed =>
    case Locking =>
    case Asleep =>
  }

  lemma ResumedDriver(s: State, mv: Move)
    requires First(s) && Phase(s) && Resumed(s) && !mv.Worker? && Act(s, mv).Some?
    ensures Resumed(Act(s, mv).value)
  {
  }

  /** In every run: while the workers stream, none is told to pause or marked as paused, and all wait for the queue. */
  lemma {:induction false} StreamingClear(threads: nat, moves: seq<Move>, r: State)
    requires After(Init(threads), moves) == Some(r)
    ensures Resumed(r)
    ensures r.main.Streaming? ==> !r.nonBlock && forall t: nat | t < |r.ws| :: !r.ws[t].doPause && !r.ws[t].paused
  {
    if moves != [] {
      LastMove(Init(threads), moves);
      var m := |moves| - 1;
      var s := After(Init(threads), moves[..m]).value;
      StreamingClear(threads, moves[..m], s);
      EveryRunTracked(threads, moves[..m], s);
      if moves[m].Worker? {
        ResumedWorker(s, moves[m].t);
      } else {
        ResumedDriver(s, moves[m]);
      }
    }
  }

  /** At move i of the run worker t looks into the queue, finds nothing, and does not wait. */
  predicate FindsNothing(s: State, moves: seq<Move>, t: nat, i: nat) {
    i < |moves| && moves[i] == Move.Worker(t) &&
    match After(s, moves[..i])
    case None => false
    case Some(q) => t < |q.ws| && q.ws[t].pc.Getting? && q.queue == [] && q.nonBlock
  }

  /** At move i of the run worker t is told to pause. */
  predicate ObeysAt(s: State, moves: seq<Move>, t: nat, i: nat) {
    i < |moves| && moves[i] == Move.Worker(t) &&
    match After(s, moves[..i])
    case None => false
    case Some(q) => t < |q.ws| && q.ws[t].pc.Failed? && q.ws[t].doPause
  }

  /** Where worker t stands tells what it has been through. */
  ghost predicate Went(s: State, moves: seq<Move>, t: nat, w: Worker) {
    && (w.pc.Failed? ==> exists i: nat :: FindsNothing(s, moves, t, i))
    && (w.pc.Locking? || w.paused ==> exists i: nat, j: nat :: i < j && FindsNothing(s, moves, t, i) && ObeysAt(s, moves, t, j))
  }

  lemma LaterStill(s: State, moves: seq<Move>, t: nat, w: Worker)
    requires moves != [] && Went(s, moves[..|moves| - 1], t, w)
    ensures Went(s, moves, t, w)
  {
    var init := moves[..|moves| - 1];
    forall i: nat | i < |init|
      ensures FindsNothing(s, init, t, i) == FindsNothing(s, moves, t, i) && ObeysAt(s, init, t, i) == ObeysAt(s, moves, t, i)
    {
      assert init[..i] == moves[..i];
    }
  }

  /**
   * A worker that is awake and not on its way to sleep, as after a resumption, is only marked as
   * paused again after it has found the queue empty and then been told to pause, in that order.
   */
  lemma {:induction false} LooksBeforeSleeping(s: State, moves: seq<Move>, t: nat, r: State)
    requires After(s, moves) == Some(r) && t < |s.ws| && !s.ws[t].paused && !s.ws[t].pc.Failed? && !s.ws[t].pc.Locking?
    ensures |r.ws| == |s.ws| && Went(s, moves, t, r.ws[t])
  {
    if moves != [] {
      LastMove(s, moves);
      var m := |moves| - 1;
      var q := After(s, moves[..m]).value;
      LooksBeforeSleeping(s, moves[..m], t, q);
      LaterStill(s, moves, t, q.ws[t]);
      if moves[m] == Move.Worker(t) {
        OwnMove(s, moves, t, q, r);
      } else {
        OtherMove(q, moves[m], t, r);
      }
    }
  }

  lemma OtherMove(q: State, mv: Move, t: nat, r: State)
    requires Act(q, mv) == Some(r) && t < |q.ws| && mv != Move.Worker(t)
    ensures |r.ws| == |q.ws| && r.ws[t].pc == q.ws[t].pc && (r.ws[t].paused ==> q.ws[t].paused)
  {
  }

  lemma OwnMove(s: State, moves: seq<Move>, t: nat, q: State, r: State)
    requires moves != [] && After(s, moves[..|moves| - 1]) == Some(q) && Act(q, moves[|moves| - 1]) == Some(r)
    requires moves[|moves| - 1] == Move.Worker(t) && t < |q.ws| && Went(s, moves, t, q.ws[t])
    ensures |r.ws| == |q.ws| && Went(s, moves, t, r.ws[t])
  {
    var m := |moves| - 1;
    match q.ws[t].pc
    case Getting => assert q.queue == [] ==> FindsNothing(s, moves, t, m);
    case Failed =>
      if q.ws[t].doPause {
        var i: nat :| FindsNothing(s, moves, t, i);
        assert i != m;
        assert ObeysAt(s, moves, t, m);
      }
    case _ =>
  }

  // Runs that can be relied on

  predicate NoneBlind(s: State) {
    forall t: nat | t < |s.ws| :: !Blind(s.ws[t])
  }

  /** Between flushes a queue with something in it has only workers that will look at it. */
  predicate Watched(s: State) {
    s.queue == [] ||
    match s.main
    case Rest => false
    case Resuming(i, _) =>
      forall t: nat | t < |s.ws| :: !s.ws[t].pc.Failed? && !s.ws[t].pc.Locking? && (t < i ==> !s.ws[t].paused)
    case Pausing(_) => Watchful(s)
    case Waiting => Watchful(s)
    case _ => NoneBlind(s)
  }

  predicate Calm(s: State) {
    Watched(s) && (s.flushes > 0 ==> s.gutter == multiset{})
  }

  lemma WorkerCalm(s: State, t: nat)
    requires Inv(s) && Phase(s) && Calm(s) && t < |s.ws| && WorkerMove(s, t).Some?
    ensures Calm(WorkerMove(s, t).value)
  {
    if s.main.Pausing? || s.main.Waiting? {
      WatchfulStays(s, Move.Worker(t));
    } else {
      WorkerSees(s, t);
    }
  }

  lemma WorkerSees(s: State, t: nat)
    requires First(s) && Watched(s) && !s.main.Pausing? && !s.main.Waiting? && t < |s.ws| && WorkerMove(s, t).Some?
    ensures Watched(WorkerMove(s, t).value)
  {
    var w := s.ws[t];
    match w.pc
    case Getting =>
    case Working(_) =>
    case Failed =>
    case Locking =>
    case Asleep =>
  }

  lemma SpillCalm(s: State, batch: seq<Half>)
    requires Inv(s) && Calm(s) && Act(s, Spill(batch)).Some?
    ensures Calm(Act(s, Spill(batch)).value)
  {
    SpillNeedsGutter(s, batch);
    assert Untouched(s);
  }

  lemma SpillNeedsGutter(s: State, batch: seq<Half>)
    requires Act(s, Spill(batch)).Some?
    ensures s.gutter != multiset{}
  {
    assert batch[0] in multiset(batch);
  }

  lemma DriverCalm(s: State, mv: Move)
    requires Inv(s) && Phase(s) && Calm(s) && !mv.Worker? && !mv.Insert? && Act(s, mv).Some? && |s.ws| > 0
    ensures Calm(Act(s, mv).value)
  {
    match mv
    case Spill(batch) => SpillCalm(s, batch);
    case Block =>
      if s.main.Unblocking? && s.queue != [] {
        assert !Blind(s.ws[0]);
      }
    case Check =>
      assert forall t: nat | t < |s.ws| :: s.ws[t].paused && Blind(s.ws[t]);
    case Pause => PauseCalm(s);
    case _ =>
  }

  /** Telling a worker to pause does not make it look away. */
  lemma PauseCalm(s: State)
    requires Calm(s) && Act(s, Pause).Some?
    ensures Calm(Act(s, Pause).value)
  {
    var r := Act(s, Pause).value;
    if s.queue != [] && s.main.i < |s.ws| {
      var t: nat :| t < |s.ws| && !Blind(s.ws[t]);
      assert !Blind(r.ws[t]);
    }
  }

  /** Resuming after a flush starts afresh, whatever happened before. */
  lemma ResumeCalm(s: State)
    requires Inv(s) && Phase(s) && s.main.Rest?
    ensures Calm(Act(s, Resume).value)
  {
  }

  /** Resuming and streaming happen only before the first flush or after a later resumption. */
  ghost predicate InSegment(s: State, h: seq<Move>) {
    (s.main.Resuming? || s.main.Streaming?) && Check in h ==> Later(h)
  }

  predicate Risky(h: seq<Move>) {
    Later(h) && Streamed(h)
  }

  lemma SegmentWorker(s: State, h: seq<Move>, t: nat)
    requires InSegment(s, h) && Act(s, Move.Worker(t)).Some?
    ensures InSegment(Act(s, Move.Worker(t)).value, h)
  {
  }

  lemma SegmentDriver(s: State, h: seq<Move>, mv: Move)
    requires Tracked(s, h) && InSegment(s, h) && !mv.Worker? && Act(s, mv).Some?
    ensures InSegment(Act(s, mv).value, h + [mv])
  {
    assert (h + [mv])[..|h|] == h;
  }

  lemma CalmDriver(s: State, h: seq<Move>, mv: Move)
    requires Tracked(s, h) && InSegment(s, h) && (!Risky(h) ==> Calm(s)) && |s.ws| > 0
    requires !mv.Worker? && Act(s, mv).Some? && !Risky(h + [mv])
    ensures Calm(Act(s, mv).value)
  {
    assert (h + [mv])[..|h|] == h;
    if mv == Resume && s.main.Rest? {
      ResumeCalm(s);
    } else if !mv.Insert? {
      DriverCalm(s, mv);
    }
  }

  lemma {:induction false} CalmRuns(threads: nat, moves: seq<Move>, r: State)
    requires threads > 0 && After(Init(threads), moves) == Some(r)
    ensures InSegment(r, Calls(moves)) && (!Risky(Calls(moves)) ==> Calm(r))
  {
    if moves != [] {
      LastMove(Init(threads), moves);
      var m := |moves| - 1;
      var s, h := After(Init(threads), moves[..m]).value, Calls(moves[..m]);
      EveryRunTracked(threads, moves[..m], s);
      CalmRuns(threads, moves[..m], s);
      CalmMove(s, h, moves[m], r);
    }
  }

  lemma CalmMove(s: State, h: seq<Move>, mv: Move, r: State)
    requires Tracked(s, h) && InSegment(s, h) && (!Risky(h) ==> Calm(s)) && |s.ws| > 0 && Act(s, mv) == Some(r)
    ensures var h' := if mv.Worker? then h else h + [mv]; InSegment(r, h') && (!Risky(h') ==> Calm(r))
  {
    if mv.Worker? {
      SegmentWorker(s, h, mv.t);
      if !Risky(h) {
        WorkerCalm(s, mv.t);
      }
    } else {
      SegmentDriver(s, h, mv);
      if !Risky(h + [mv]) {
        CalmDriver(s, h, mv);
      }
    }
  }

  /** At rest after a calm run everything streamed has been applied. */
  lemma CalmComplete(s: State)
    requires Inv(s) && Phase(s) && Calm(s) && s.main.Rest?
    ensures s.applied == s.inserted
  {
    if s.flushes > 0 {
      forall h
        ensures s.inserted[h] == s.applied[h]
      {
        assert Placed(s, h);
        HeldNone(s.ws, h);
      }
    } else {
      forall h
        ensures s.inserted[h] == s.applied[h]
      {
        assert Placed(s, h);
      }
    }
  }

  // Runs that go wrong

  /** Workers not yet woken, about to miss the queue, or asleep again with something in it. */
  predicate Waking(s: State) {
    s.main.Resuming? && s.nonBlock && s.main.i <= |s.ws| && (s.main.half ==> s.main.i < |s.ws|) &&
    forall t: nat | t < |s.ws| ::
      s.ws[t].pc.Asleep? &&
      (t < s.main.i ==> !s.ws[t].doPause && !s.ws[t].paused) && (t == s.main.i && s.main.half ==> !s.ws[t].doPause)
  }

  predicate AllFailed(s: State) {
    (forall t: nat | t < |s.ws| :: s.ws[t].pc.Failed?) &&
    (s.main.Pausing? ==> forall t: nat | t < s.main.i && t < |s.ws| :: s.ws[t].doPause) &&
    (s.main.Waiting? ==> forall t: nat | t < |s.ws| :: s.ws[t].doPause)
  }

  predicate AllAsleep(s: State) {
    !s.main.Resuming? && !s.main.Streaming? && forall t: nat | t < |s.ws| :: s.ws[t].pc.Asleep? && s.ws[t].paused && s.ws[t].doPause
  }

  predicate Dozing(s: State) {
    Waking(s) || AllFailed(s) || AllAsleep(s)
  }

  /** r stands for the run that dozes: the driver is where it is in s, and what was streamed still waits. */
  predicate Mirrors(s: State, r: State, h: seq<Move>) {
    && r.main == s.main && r.gutter == s.gutter && |r.ws| == |s.ws| > 0 && Dozing(r)
    && (Waking(r) ==> !Streamed(h)) && (Streamed(h) ==> r.gutter != multiset{} || r.queue != [])
  }

  /** More worker steps at the end of a run leave the driver's calls alone. */
  lemma WorkerSnoc(s0: State, moves: seq<Move>, r: State, t: nat, q: State) returns (more: seq<Move>)
    requires After(s0, moves) == Some(r) && Act(r, Move.Worker(t)) == Some(q)
    ensures After(s0, more) == Some(q) && Calls(more) == Calls(moves)
  {
    more := moves + [Move.Worker(t)];
    AfterSnoc(s0, moves, Move.Worker(t));
    CallsSnoc(moves, Move.Worker(t));
  }

  /** Worker t wakes, empties the queue, and finds it empty. */
  lemma {:induction false} Drains(s0: State, moves: seq<Move>, r: State, t: nat) returns (more: seq<Move>, q: State)
    requires After(s0, moves) == Some(r) && t < |r.ws| && r.nonBlock
    requires r.ws[t].pc.Getting? || r.ws[t].pc.Working?
    ensures After(s0, more) == Some(q) && Calls(more) == Calls(moves) && q.queue == []
    ensures q.main == r.main && q.gutter == r.gutter && q.inserted == r.inserted && q.nonBlock && |q.ws| == |r.ws|
    ensures q.ws[t].pc.Failed? && q.ws[t].doPause == r.ws[t].doPause
    ensures forall u: nat | u < |r.ws| && u != t :: q.ws[u] == r.ws[u]
    decreases |r.queue|, if r.ws[t].pc.Working? then 1 else 0
  {
    var next := Act(r, Move.Worker(t)).value;
    more := WorkerSnoc(s0, moves, r, t, next);
    q := next;
    if !q.ws[t].pc.Failed? {
      more, q := Drains(s0, more, q, t);
    }
  }

  lemma {:induction false} WakeAll(s0: State, moves: seq<Move>, r: State, i: nat) returns (more: seq<Move>, q: State)
    requires After(s0, moves) == Some(r) && i <= |r.ws| && r.nonBlock
    requires forall t: nat | t < |r.ws| :: if t < i then r.ws[t].pc.Failed? else r.ws[t].pc.Asleep? && !r.ws[t].doPause
    ensures After(s0, more) == Some(q) && Calls(more) == Calls(moves)
    ensures q.main == r.main && q.gutter == r.gutter && q.inserted == r.inserted && |q.ws| == |r.ws|
    ensures (forall t: nat | t < |q.ws| :: q.ws[t].pc.Failed?)
    decreases |r.ws| - i
  {
    if i == |r.ws| {
      more, q := moves, r;
    } else {
      var woken := Act(r, Move.Worker(i)).value;
      more := WorkerSnoc(s0, moves, r, i, woken);
      more, q := Drains(s0, more, woken, i);
      more, q := WakeAll(s0, more, q, i + 1);
    }
  }

  /** A worker that found the queue empty goes to sleep without looking again. */
  lemma {:induction false} SleepAll(s0: State, moves: seq<Move>, r: State, i: nat) returns (more: seq<Move>, q: State)
    requires After(s0, moves) == Some(r) && i <= |r.ws| && forall t: nat | t < |r.ws| :: r.ws[t].doPause
    requires forall t: nat | t < |r.ws| :: if t < i then r.ws[t].pc.Asleep? && r.ws[t].paused else r.ws[t].pc.Failed?
    ensures After(s0, more) == Some(q) && Calls(more) == Calls(moves)
    ensures q.main == r.main && q.gutter == r.gutter && q.queue == r.queue && q.inserted == r.inserted && |q.ws| == |r.ws|
    ensures forall t: nat | t < |q.ws| :: q.ws[t].pc.Asleep? && q.ws[t].paused && q.ws[t].doPause
    decreases |r.ws| - i
  {
    if i == |r.ws| {
      more, q := moves, r;
    } else {
      var locking := Act(r, Move.Worker(i)).value;
      more := WorkerSnoc(s0, moves, r, i, locking);
      var asleep := Act(locking, Move.Worker(i)).value;
      more := WorkerSnoc(s0, more, locking, i, asleep);
      more, q := SleepAll(s0, more, asleep, i + 1);
    }
  }

  lemma DriverSnoc(s0: State, moves: seq<Move>, r: State, mv: Move, q: State) returns (more: seq<Move>)
    requires After(s0, moves) == Some(r) && Act(r, mv) == Some(q) && !mv.Worker?
    ensures After(s0, more) == Some(q) && Calls(more) == Calls(moves) + [mv]
  {
    more := moves + [mv];
    AfterSnoc(s0, moves, mv);
    CallsSnoc(moves, mv);
  }

  /** The driver can do in r what it does in s, once the workers are where it needs them. */
  lemma Prepared(s: State, s0: State, moves: seq<Move>, r: State, h: seq<Move>, mv: Move)
    returns (more: seq<Move>, q: State)
    requires Mirrors(s, r, h) && After(s0, moves) == Some(r) && !mv.Worker? && Act(s, mv).Some?
    ensures After(s0, more) == Some(q) && Calls(more) == Calls(moves) && Mirrors(s, q, h)
    ensures mv == Check ==> AllAsleep(q)
    ensures mv == Unpause && s.main.Resuming? && s.main.i >= |s.ws| ==> AllFailed(q)
  {
    more, q := moves, r;
    if mv == Check && !AllAsleep(r) {
      more, q := SleepAll(s0, moves, r, 0);
    } else if mv == Unpause && s.main.i >= |s.ws| && !AllFailed(r) {
      more, q := WakeAll(s0, moves, r, 0);
    }
  }

  /** Driver steps keep every kind of dozing. */
  lemma DozeStep(r: State, mv: Move)
    requires Dozing(r) && !mv.Worker? && Act(r, mv).Some? && !(mv == Resume && r.main.Rest?)
    requires mv == Check ==> AllAsleep(r)
    requires mv == Unpause && r.main.i >= |r.ws| ==> AllFailed(r)
    ensures Dozing(Act(r, mv).value)
    ensures Waking(Act(r, mv).value) ==> r.main.Resuming? || r.main.Streaming?
  {
    var q := Act(r, mv).value;
    if AllFailed(r) && mv != Check {
      assert AllFailed(q);
    } else if AllAsleep(r) {
      assert AllAsleep(q);
    } else {
      assert Waking(q);
    }
  }

  /** What was streamed still waits after a driver step. */
  lemma StillWaits(r: State, h: seq<Move>, mv: Move)
    requires !mv.Worker? && Act(r, mv).Some? && (Streamed(h) ==> r.gutter != multiset{} || r.queue != [])
    requires r.main.Rest? <==> AtRest(h)
    ensures var q := Act(r, mv).value; Streamed(h + [mv]) ==> q.gutter != multiset{} || q.queue != []
  {
    assert (h + [mv])[..|h|] == h;
    if mv.Insert? {
      assert mv.h in Act(r, mv).value.gutter;
    }
  }

  lemma MirrorStep(s: State, r: State, h: seq<Move>, mv: Move)
    requires Mirrors(s, r, h) && !mv.Worker? && Act(s, mv).Some? && !(mv == Resume && s.main.Rest?)
    requires s.main.Rest? <==> AtRest(h)
    requires mv == Check ==> AllAsleep(r)
    requires mv == Unpause && s.main.i >= |s.ws| ==> AllFailed(r)
    ensures Act(r, mv).Some? && Mirrors(Act(s, mv).value, Act(r, mv).value, h + [mv])
  {
    assert (h + [mv])[..|h|] == h;
    SameDriver(s, r, mv);
    DozeStep(r, mv);
    StillWaits(r, h, mv);
    WakingUnstreamed(s, r, h, mv);
  }

  lemma SameDriver(s: State, r: State, mv: Move)
    requires r.main == s.main && r.gutter == s.gutter && |r.ws| == |s.ws| && !mv.Worker? && Act(s, mv).Some?
    requires mv == Check ==> AllAsleep(r)
    ensures Act(r, mv).Some?
    ensures var (a, b) := (Act(s, mv).value, Act(r, mv).value); a.main == b.main && a.gutter == b.gutter && |a.ws| == |b.ws|
  {
    if mv == Check {
      assert AllPaused(r.ws);
    } else if mv == Unpause || mv == Pause {
      SameSweep(s, r, mv);
    }
  }

  lemma SameSweep(s: State, r: State, mv: Move)
    requires r.main == s.main && |r.ws| == |s.ws| && (mv == Unpause || mv == Pause) && Act(s, mv).Some?
    ensures Act(r, mv).Some?
    ensures var (a, b) := (Act(s, mv).value, Act(r, mv).value);
      a.main == b.main && a.gutter == s.gutter && b.gutter == r.gutter && |a.ws| == |b.ws|
  {
  }

  lemma WakingUnstreamed(s: State, r: State, h: seq<Move>, mv: Move)
    requires Mirrors(s, r, h) && !mv.Worker? && Act(r, mv).Some? && !(mv == Resume && s.main.Rest?)
    requires s.main.Rest? <==> AtRest(h)
    ensures Waking(Act(r, mv).value) ==> !Streamed(h + [mv])
  {
    assert (h + [mv])[..|h|] == h;
    var q := Act(r, mv).value;
    if Waking(q) {
      assert q.ws[0].pc == r.ws[0].pc;
      assert r.ws[0].pc.Asleep? && !AllFailed(r);
    }
  }

  /** Resuming after a flush: nobody has woken yet. */
  lemma MirrorResume(s: State, h: seq<Move>)
    requires Tracked(s, h) && s.main.Rest? && s.flushes > 0 && |s.ws| > 0
    ensures Act(s, Resume).Some? && Mirrors(Act(s, Resume).value, Act(s, Resume).value, h + [Resume])
  {
    assert (h + [Resume])[..|h|] == h;
    assert Waking(Act(s, Resume).value);
  }

  lemma ResumeDozes(s0: State, moves: seq<Move>, s: State, h: seq<Move>) returns (more: seq<Move>, q: State)
    requires Tracked(s, h) && s.main.Rest? && s.flushes > 0 && |s.ws| > 0 && After(s0, moves) == Some(s) && Calls(moves) == h
    ensures After(s0, more) == Some(q) && Calls(more) == h + [Resume]
    ensures Act(s, Resume) == Some(q) && Mirrors(q, q, h + [Resume])
  {
    MirrorResume(s, h);
    q := Act(s, Resume).value;
    more := DriverSnoc(s0, moves, s, Resume, q);
  }

  /** The last call of a history that was resumed later. */
  lemma LaterLast(h: seq<Move>, mv: Move)
    requires Later(h + [mv])
    ensures mv == Resume && AtRest(h) ==> Check in h
    ensures !(mv == Resume && AtRest(h)) ==> Later(h)
  {
    assert (h + [mv])[..|h|] == h;
  }

  /**
   * Whatever the driver did since a later resumption, the workers may have dozed through it:
   * some schedule of theirs leads to a state in which what was streamed still waits.
   */
  lemma {:induction false} Doze(threads: nat, moves: seq<Move>, s: State) returns (other: seq<Move>, r: State)
    requires threads > 0 && After(Init(threads), moves) == Some(s) && Later(Calls(moves))
    ensures After(Init(threads), other) == Some(r) && Calls(other) == Calls(moves) && Mirrors(s, r, Calls(moves))
    decreases |moves|
  {
    LastMove(Init(threads), moves);
    var m := |moves| - 1;
    var x := After(Init(threads), moves[..m]).value;
    EveryRunTracked(threads, moves[..m], x);
    if moves[m].Worker? {
      other, r := Doze(threads, moves[..m], x);
      WorkerMirrored(x, s, r, Calls(moves), moves[m].t);
    } else {
      LaterLast(Calls(moves[..m]), moves[m]);
      if moves[m] == Resume && x.main.Rest? {
        other, r := ResumeDozes(Init(threads), moves[..m], x, Calls(moves[..m]));
      } else {
        other, r := Doze(threads, moves[..m], x);
        other, r := DozeOn(x, Init(threads), other, r, Calls(moves[..m]), moves[m]);
      }
    }
  }

  lemma WorkerMirrored(s: State, next: State, r: State, h: seq<Move>, t: nat)
    requires Mirrors(s, r, h) && Act(s, Move.Worker(t)) == Some(next)
    ensures Mirrors(next, r, h)
  {
  }

  lemma DozeOn(s: State, s0: State, moves: seq<Move>, r: State, h: seq<Move>, mv: Move) returns (more: seq<Move>, q: State)
    requires Mirrors(s, r, h) && After(s0, moves) == Some(r) && Calls(moves) == h && !mv.Worker? && Act(s, mv).Some?
    requires (s.main.Rest? <==> AtRest(h)) && !(mv == Resume && s.main.Rest?)
    ensures After(s0, more) == Some(q) && Calls(more) == h + [mv] && Mirrors(Act(s, mv).value, q, h + [mv])
  {
    more, q := Prepared(s, s0, moves, r, h, mv);
    MirrorStep(s, q, h, mv);
    var next := Act(q, mv).value;
    more := DriverSnoc(s0, more, q, mv, next);
    q := next;
  }

  // The condition

  /** Under every schedule of the workers, everything streamed has been applied when the driver's calls are over. */
  ghost predicate Reliable(threads: nat, h: seq<Move>) {
    forall moves: seq<Move> | Finishes(threads, h, moves) ::
      After(Init(threads), moves).value.applied == After(Init(threads), moves).value.inserted
  }

  /** moves is a run in which the driver does h and ends with a flush that has returned. */
  predicate Finishes(threads: nat, h: seq<Move>, moves: seq<Move>) {
    Calls(moves) == h && After(Init(threads), moves).Some? && After(Init(threads), moves).value.main.Rest?
  }

  lemma LeftInQueue(s: State)
    requires Inv(s) && s.queue != []
    ensures s.applied != s.inserted
  {
    var h := s.queue[0][0];
    QueuedSome(s.queue);
    assert Placed(s, h);
    assert s.inserted[h] > s.applied[h];
  }

  /** A later flush of a segment that streamed something can return with an update still queued. */
  lemma LaterFlushMisses(threads: nat, h: seq<Move>, moves: seq<Move>) returns (other: seq<Move>)
    requires threads > 0 && Finishes(threads, h, moves) && Later(h) && Streamed(h)
    ensures Finishes(threads, h, other)
    ensures var r := After(Init(threads), other).value; r.queue != [] && r.applied != r.inserted
  {
    var r;
    other, r := Doze(threads, moves, After(Init(threads), moves).value);
    EveryRunTracked(threads, other, r);
    LeftInQueue(r);
  }

  /**
   * Exactly when a flush can be relied on, from the driver's side: either the workers have not
   * been resumed since an earlier flush, or nothing has been streamed since they were.
   */
  lemma ReliableIff(threads: nat, h: seq<Move>, moves: seq<Move>)
    requires threads > 0 && Finishes(threads, h, moves)
    ensures Reliable(threads, h) <==> !(Later(h) && Streamed(h))
  {
    if Later(h) && Streamed(h) {
      var other := LaterFlushMisses(threads, h, moves);
    } else {
      forall run: seq<Move> | Finishes(threads, h, run)
        ensures After(Init(threads), run).value.applied == After(Init(threads), run).value.inserted
      {
        var r := After(Init(threads), run).value;
        EveryRunTracked(threads, run, r);
        CalmRuns(threads, run, r);
        CalmComplete(r);
      }
    }
  }

  // It happens: any number of workers, any stream

  /** The driver tells every worker to go on. */
  lemma {:induction false} UnpauseAll(s0: State, moves: seq<Move>, r: State) returns (more: seq<Move>, q: State)
    requires After(s0, moves) == Some(r) && Waking(r)
    ensures After(s0, more) == Some(q) && Waking(q) && q.main == Resuming(|q.ws|, false) && |q.ws| == |r.ws|
    ensures q.gutter == r.gutter && q.inserted == r.inserted
    decreases |r.ws| - r.main.i, if r.main.half then 0 else 1
  {
    more, q := moves, r;
    if r.main.i < |r.ws| {
      var next := Act(r, Unpause).value;
      AfterSnoc(s0, moves, Unpause);
      more, q := UnpauseAll(s0, moves + [Unpause], next);
    }
  }

  lemma {:induction false} InsertAll(s0: State, moves: seq<Move>, r: State, stream: seq<Half>, k: nat) returns (more: seq<Move>, q: State)
    requires After(s0, moves) == Some(r) && r.main.Streaming? && AllFailed(r) && k <= |stream|
    ensures After(s0, more) == Some(q) && q.main.Streaming? && AllFailed(q) && |q.ws| == |r.ws|
    ensures q.gutter == r.gutter + multiset(stream[k..]) && q.inserted == r.inserted + multiset(stream[k..])
    decreases |stream| - k
  {
    if k == |stream| {
      more, q := moves, r;
      assert stream[k..] == [];
    } else {
      more, q := Then(s0, moves, r, Insert(stream[k]));
      FirstOut(stream, k);
      more, q := InsertAll(s0, more, q, stream, k + 1);
    }
  }

  lemma FirstOut(stream: seq<Half>, k: nat)
    requires k < |stream|
    ensures multiset(stream[k..]) == multiset{stream[k]} + multiset(stream[k + 1..])
  {
    assert stream[k..] == [stream[k]] + stream[k + 1..];
  }

  lemma {:induction false} PauseAll(s0: State, moves: seq<Move>, r: State) returns (more: seq<Move>, q: State)
    requires After(s0, moves) == Some(r) && r.main.Pausing? && r.main.i <= |r.ws|
    requires forall t: nat | t < r.main.i :: r.ws[t].doPause
    ensures After(s0, more) == Some(q) && q.main.Waiting? && |q.ws| == |r.ws| && q.queue == r.queue && q.inserted == r.inserted
    ensures forall t: nat | t < |q.ws| :: q.ws[t].doPause && q.ws[t].pc == r.ws[t].pc
    ensures q.nonBlock == r.nonBlock
    decreases |r.ws| - r.main.i
  {
    var next := Act(r, Pause).value;
    AfterSnoc(s0, moves, Pause);
    if r.main.i < |r.ws| {
      more, q := PauseAll(s0, moves + [Pause], next);
    } else {
      more, q := moves + [Pause], next;
    }
  }

  lemma Then(s0: State, moves: seq<Move>, r: State, mv: Move) returns (more: seq<Move>, q: State)
    requires After(s0, moves) == Some(r) && Act(r, mv).Some?
    ensures After(s0, more) == Some(q) && q == Act(r, mv).value
  {
    AfterSnoc(s0, moves, mv);
    more, q := moves + [mv], Act(r, mv).value;
  }

  lemma SpillAndBlock(s0: State, moves: seq<Move>, r: State, stream: seq<Half>) returns (more: seq<Move>, q: State)
    requires After(s0, moves) == Some(r) && r.main.Streaming? && stream != [] && r.gutter == multiset(stream)
    ensures After(s0, more) == Some(q) && q.main == Pausing(0) && q.queue != [] && q.inserted == r.inserted && q.ws == r.ws
  {
    more, q := Then(s0, moves, r, Query);
    more, q := Then(s0, more, q, Spill(stream));
    assert q.gutter == multiset{};
    more, q := Then(s0, more, q, Block);
    more, q := Then(s0, more, q, Block);
  }

  /** From the stream of workers that doze to the return of the flush. */
  lemma FlushPastDozers(s0: State, moves: seq<Move>, r: State, stream: seq<Half>) returns (more: seq<Move>, q: State)
    requires After(s0, moves) == Some(r) && r.main.Streaming? && AllFailed(r) && stream != [] && r.gutter == multiset(stream)
    ensures After(s0, more) == Some(q) && q.main.Rest? && q.queue != [] && q.inserted == r.inserted
  {
    more, q := SpillAndBlock(s0, moves, r, stream);
    more, q := PauseAll(s0, more, q);
    AllFailedNow(r.ws, q.ws);
    more, q := SleepAndReturn(s0, more, q);
  }

  lemma AllFailedNow(ws: seq<Worker>, next: seq<Worker>)
    requires |next| == |ws| && (forall t: nat | t < |ws| :: ws[t].pc.Failed?)
    requires forall t: nat | t < |next| :: next[t].doPause && next[t].pc == ws[t].pc
    ensures FailedUpTo(next, |next|)
  {
  }

  lemma SleepAndReturn(s0: State, moves: seq<Move>, r: State) returns (more: seq<Move>, q: State)
    requires After(s0, moves) == Some(r) && r.main.Waiting? && FailedUpTo(r.ws, |r.ws|)
    ensures After(s0, more) == Some(q) && q.main.Rest? && q.queue == r.queue && q.inserted == r.inserted && q.flushes > 0
  {
    more, q := SleepAll(s0, moves, r, 0);
    more, q := Then(s0, more, q, Check);
  }

  /** After any flush that returned, whatever is streamed next can be missed by the next flush. */
  lemma NextFlushMisses(threads: nat, moves: seq<Move>, s: State, stream: seq<Half>) returns (more: seq<Move>, r: State)
    requires threads > 0 && After(Init(threads), moves) == Some(s) && s.main.Rest? && s.flushes > 0 && stream != []
    ensures After(Init(threads), more) == Some(r) && r.main.Rest? && r.inserted == s.inserted + multiset(stream)
    ensures r.queue != [] && r.applied != r.inserted
  {
    EveryRunTracked(threads, moves, s);
    more, r := Then(Init(threads), moves, s, Resume);
    more, r := UnpauseAll(Init(threads), more, r);
    more, r := WakeAll(Init(threads), more, r, 0);
    more, r := Then(Init(threads), more, r, Unpause);
    more, r := InsertAll(Init(threads), more, r, stream, 0);
    assert stream[0..] == stream;
    more, r := FlushPastDozers(Init(threads), more, r, stream);
    EveryRunTracked(threads, more, r);
    LeftInQueue(r);
  }

  /** And some flush does return: the first one, of an empty stream. */
  lemma SomeFlushReturns(threads: nat) returns (moves: seq<Move>, r: State)
    ensures After(Init(threads), moves) == Some(r) && r.main.Rest? && r.flushes > 0
  {
    var s := Init(threads);
    moves, r := FlushBegins(s, [], s);
    moves, r := PauseAll(s, moves, r);
    moves, r := FailAll(s, moves, r, 0);
    moves, r := SleepAndReturn(s, moves, r);
  }

  lemma FlushBegins(s0: State, moves: seq<Move>, s: State) returns (more: seq<Move>, r: State)
    requires After(s0, moves) == Some(s) && s.main.Rest? && s.gutter == multiset{}
    ensures After(s0, more) == Some(r) && r.main == Pausing(0) && r.nonBlock && r.ws == s.ws
  {
    more, r := Then(s0, moves, s, Query);
    more, r := Then(s0, more, r, Block);
    more, r := Then(s0, more, r, Block);
  }

  lemma {:induction false} FailAll(s0: State, moves: seq<Move>, r: State, i: nat) returns (more: seq<Move>, q: State)
    requires After(s0, moves) == Some(r) && i <= |r.ws| && r.nonBlock && r.main.Waiting?
    requires FailedUpTo(r.ws, i)
    ensures After(s0, more) == Some(q) && q.main == r.main && FailedUpTo(q.ws, |q.ws|)
    decreases |r.ws| - i
  {
    more, q := moves, r;
    if i < |r.ws| {
      assert FailedUpTo(r.ws, i) && r.ws[i].pc.Getting?;
      more, q := Drains(s0, moves, r, i);
      NextFailed(r.ws, q.ws, i);
      more, q := FailAll(s0, more, q, i + 1);
    }
  }

  /** All have been told to pause; those below i have found the queue empty, the others have not looked yet. */
  predicate FailedUpTo(ws: seq<Worker>, i: nat) {
    (forall t: nat | t < |ws| :: ws[t].doPause) &&
    (forall t: nat | t < |ws| && t < i :: ws[t].pc.Failed?) && (forall t: nat | i <= t < |ws| :: ws[t].pc.Getting?)
  }

  lemma NextFailed(ws: seq<Worker>, next: seq<Worker>, i: nat)
    requires FailedUpTo(ws, i) && |next| == |ws| && i < |ws| && next[i].pc.Failed? && next[i].doPause
    requires forall u: nat | u < |ws| && u != i :: next[u] == ws[u]
    ensures FailedUpTo(next, i + 1)
  {
  }
}
