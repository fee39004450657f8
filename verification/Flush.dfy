// The hand-off from stream to sketches: gutters, work queue, worker threads, and the
// flush before a query (include/worker_thread_group.h, include/graph_sketch_driver.h).

module Flush {
  import opened Counting
  import opened Pairing
  import opened DsuConcurrent

  /** One end of an update: dst is to be toggled in the sketch of src. */
  datatype Half = Half(src: nat, dst: nat)

  /**
   * Where a worker stands: before get_data, holding a batch, after get_data failed, past
   * the test of do_pause, or waiting on the condition variable.
   */
  datatype Pc = Getting | Working(batch: seq<Half>) | Failed | Locking | Asleep

  datatype Worker = Worker(pc: Pc, doPause: bool, paused: bool)

  /**
   * Where the driver stands. At Rest a flush has returned. Resuming(i, half) is about to
   * clear do_pause of worker i, or its paused flag if half.
   */
  datatype Main =
    | Rest
    | Resuming(i: nat, half: bool)
    | Streaming
    | Forcing
    | Unblocking
    | Pausing(i: nat)
    | Waiting

  /** inserted counts every half ever handed to the guttering system, flushes the calls of flush_workers. */
  datatype State = State(main: Main, nonBlock: bool, gutter: multiset<Half>, queue: seq<seq<Half>>,
                         ws: seq<Worker>, applied: multiset<Half>, inserted: multiset<Half>, flushes: nat)

  datatype Move =
    | Resume
    | Unpause
    | Insert(h: Half)
    | Spill(batch: seq<Half>)
    | Query
    | Block
    | Pause
    | Check
    | Worker(t: nat)

  // The steps

  /** One step of worker t, or None when it has to wait. */
  function WorkerMove(s: State, t: nat): Option<State>
    requires t < |s.ws|
  {
    var w := s.ws[t];
    match w.pc
    case Getting =>
      if s.queue != [] then Some(s.(queue := s.queue[1..], ws := s.ws[t := w.(pc := Working(s.queue[0]))]))
      else if s.nonBlock then Some(s.(ws := s.ws[t := w.(pc := Failed)]))
      else None
    case Working(batch) => Some(s.(applied := s.applied + multiset(batch), ws := s.ws[t := w.(pc := Getting)]))
    case Failed => Some(s.(ws := s.ws[t := w.(pc := if w.doPause then Locking else Getting)]))
    case Locking => Some(s.(ws := s.ws[t := w.(pc := Asleep, paused := true)]))
    case Asleep => if w.doPause then None else Some(s.(ws := s.ws[t := w.(pc := Getting, paused := false)]))
  }

  predicate AllPaused(ws: seq<Worker>) {
    forall t: nat | t < |ws| :: ws[t].paused
  }

  /** One step of the driver or of a worker. */
  function Act(s: State, mv: Move): Option<State> {
    match mv
    case Worker(t) => if t < |s.ws| then WorkerMove(s, t) else None
    case Resume =>
      if s.main.Rest? || s.main.Streaming? then Some(s.(main := Resuming(0, false))) else None
    case Unpause =>
      if !s.main.Resuming? then None
      else if s.main.i >= |s.ws| then Some(s.(main := Streaming, nonBlock := false))
      else if s.main.half then
        Some(s.(main := Resuming(s.main.i + 1, false), ws := s.ws[s.main.i := s.ws[s.main.i].(paused := false)]))
      else Some(s.(main := Resuming(s.main.i, true), ws := s.ws[s.main.i := s.ws[s.main.i].(doPause := false)]))
    case Insert(h) =>
      if !s.main.Streaming? then None
      else Some(s.(gutter := s.gutter + multiset{h}, inserted := s.inserted + multiset{h}))
    case Spill(batch) =>
      if (s.main.Streaming? || s.main.Forcing?) && batch != [] && multiset(batch) <= s.gutter
      then Some(s.(gutter := s.gutter - multiset(batch), queue := s.queue + [batch])) else None
    case Query => if s.main.Rest? || s.main.Streaming? then Some(s.(main := Forcing)) else None
    case Block =>
      if s.main.Forcing? && s.gutter == multiset{} then Some(s.(main := Unblocking))
      else if s.main.Unblocking? then Some(s.(main := Pausing(0), nonBlock := true))
      else None
    case Pause =>
      if !s.main.Pausing? then None
      else if s.main.i >= |s.ws| then Some(s.(main := Waiting))
      else Some(s.(main := Pausing(s.main.i + 1), ws := s.ws[s.main.i := s.ws[s.main.i].(doPause := true)]))
    case Check =>
      if s.main.Waiting? && AllPaused(s.ws) then Some(s.(main := Rest, flushes := s.flushes + 1)) else None
  }

  // Conservation

  function HeldBy(w: Worker): multiset<Half> {
    if w.pc.Working? then multiset(w.pc.batch) else multiset{}
  }

  function HeldCounts(ws: seq<Worker>, h: Half): (m: seq<nat>)
    ensures |m| == |ws|
  {
    seq(|ws|, t requires 0 <= t < |ws| => HeldBy(ws[t])[h])
  }

  /** How often h is held by a worker. */
  function Held(ws: seq<Worker>, h: Half): nat {
    Total(HeldCounts(ws, h))
  }

  /** How often h waits in the queue. */
  function Queued(queue: seq<seq<Half>>, h: Half): nat {
    if queue == [] then 0 else multiset(queue[0])[h] + Queued(queue[1..], h)
  }

  lemma HeldUpdate(ws: seq<Worker>, t: nat, w: Worker, h: Half)
    requires t < |ws|
    ensures Held(ws[t := w], h) + HeldBy(ws[t])[h] == Held(ws, h) + HeldBy(w)[h]
  {
    assert HeldCounts(ws[t := w], h) == HeldCounts(ws, h)[t := HeldBy(w)[h]];
    TotalUpdate(HeldCounts(ws, h), t, HeldBy(w)[h]);
  }

  lemma {:induction false} QueuedSnoc(queue: seq<seq<Half>>, batch: seq<Half>, h: Half)
    ensures Queued(queue + [batch], h) == Queued(queue, h) + multiset(batch)[h]
    decreases |queue|
  {
    if queue != [] {
      QueuedSnoc(queue[1..], batch, h);
      assert (queue + [batch])[1..] == queue[1..] + [batch];
    }
  }

  lemma {:induction false} HeldNone(ws: seq<Worker>, h: Half)
    requires forall t: nat | t < |ws| :: !ws[t].pc.Working?
    ensures Held(ws, h) == 0
  {
    if ws != [] {
      HeldNone(ws[..|ws| - 1], h);
      assert HeldCounts(ws, h)[..|ws| - 1] == HeldCounts(ws[..|ws| - 1], h);
    }
  }

  /** h is in exactly one place, as often as it was inserted. */
  ghost predicate Placed(s: State, h: Half) {
    s.inserted[h] == s.gutter[h] + Queued(s.queue, h) + Held(s.ws, h) + s.applied[h]
  }

  ghost predicate Conserved(s: State) {
    forall h :: Placed(s, h)
  }

  lemma TakePlaces(s: State, t: nat, h: Half)
    requires Placed(s, h) && t < |s.ws| && s.ws[t].pc.Getting? && s.queue != []
    ensures Placed(WorkerMove(s, t).value, h)
  {
    HeldUpdate(s.ws, t, s.ws[t].(pc := Working(s.queue[0])), h);
  }

  lemma ApplyPlaces(s: State, t: nat, h: Half)
    requires Placed(s, h) && t < |s.ws| && s.ws[t].pc.Working?
    ensures Placed(WorkerMove(s, t).value, h)
  {
    HeldUpdate(s.ws, t, s.ws[t].(pc := Getting), h);
  }

  lemma WorkerPlaces(s: State, t: nat, h: Half)
    requires Placed(s, h) && t < |s.ws| && WorkerMove(s, t).Some?
    ensures Placed(WorkerMove(s, t).value, h)
  {
    if s.ws[t].pc.Getting? && s.queue != [] {
      TakePlaces(s, t, h);
    } else if s.ws[t].pc.Working? {
      ApplyPlaces(s, t, h);
    } else {
      IdlePlaces(s, t, h);
    }
  }

  /** Steps of a worker with empty hands that take nothing. */
  lemma IdlePlaces(s: State, t: nat, h: Half)
    requires Placed(s, h) && t < |s.ws| && WorkerMove(s, t).Some?
    requires !s.ws[t].pc.Working? && (s.ws[t].pc.Getting? ==> s.queue == [])
    ensures Placed(WorkerMove(s, t).value, h)
  {
    var w := s.ws[t];
    match w.pc {
      case Getting => HeldUpdate(s.ws, t, w.(pc := Failed), h);
      case Failed => HeldUpdate(s.ws, t, w.(pc := if w.doPause then Locking else Getting), h);
      case Locking => HeldUpdate(s.ws, t, w.(pc := Asleep, paused := true), h);
      case Asleep => HeldUpdate(s.ws, t, w.(pc := Getting, paused := false), h);
    }
  }

  lemma SpillPlaces(s: State, batch: seq<Half>, h: Half)
    requires Placed(s, h) && Act(s, Spill(batch)).Some?
    ensures Placed(Act(s, Spill(batch)).value, h)
  {
    QueuedSnoc(s.queue, batch, h);
    assert (s.gutter - multiset(batch))[h] == s.gutter[h] - multiset(batch)[h];
  }

  lemma InsertPlaces(s: State, x: Half, h: Half)
    requires Placed(s, h) && Act(s, Insert(x)).Some?
    ensures Placed(Act(s, Insert(x)).value, h)
  {
  }

  lemma ActPlaces(s: State, mv: Move, h: Half)
    requires Placed(s, h) && Act(s, mv).Some?
    ensures Placed(Act(s, mv).value, h)
  {
    if mv.Worker? {
      WorkerPlaces(s, mv.t, h);
    } else if mv.Spill? {
      SpillPlaces(s, mv.batch, h);
    } else if mv.Insert? {
      InsertPlaces(s, mv.h, h);
    } else if mv.Unpause? && s.main.i < |s.ws| {
      var i := s.main.i;
      HeldUpdate(s.ws, i, if s.main.half then s.ws[i].(paused := false) else s.ws[i].(doPause := false), h);
    } else if mv.Pause? && s.main.i < |s.ws| {
      HeldUpdate(s.ws, s.main.i, s.ws[s.main.i].(doPause := true), h);
    } else {
      assert Act(s, mv).value.ws == s.ws;
    }
  }

  /** No step loses, duplicates or invents an update. */
  lemma ActConserves(s: State, mv: Move)
    requires Conserved(s) && Act(s, mv).Some?
    ensures Conserved(Act(s, mv).value)
  {
    forall h
      ensures Placed(Act(s, mv).value, h)
    {
      ActPlaces(s, mv, h);
    }
  }

  // What every step keeps

  predicate InFlush(m: Main) {
    m.Unblocking? || m.Pausing? || m.Waiting?
  }

  /** Before the first flush no worker has ever been told not to wait. */
  predicate Untouched(s: State) {
    !s.nonBlock && forall t: nat | t < |s.ws| :: (s.ws[t].pc.Getting? || s.ws[t].pc.Working?) && !s.ws[t].doPause && !s.ws[t].paused
  }

  /** Only sleepers are marked as paused, and the queue holds no empty batch. */
  predicate Tidy(s: State) {
    && (forall t: nat | t < |s.ws| && s.ws[t].paused :: s.ws[t].pc.Asleep?)
    && (forall k: nat | k < |s.queue| :: s.queue[k] != [])
    && (InFlush(s.main) ==> s.gutter == multiset{})
  }

  predicate First(s: State) {
    s.flushes == 0 && !s.main.Pausing? && !s.main.Waiting? ==> Untouched(s)
  }

  ghost predicate Inv(s: State) {
    Conserved(s) && Tidy(s) && First(s)
  }

  lemma WorkerTidy(s: State, t: nat)
    requires Tidy(s) && t < |s.ws| && WorkerMove(s, t).Some?
    ensures Tidy(WorkerMove(s, t).value)
  {
  }

  lemma WorkerFirst(s: State, t: nat)
    requires First(s) && t < |s.ws| && WorkerMove(s, t).Some?
    ensures First(WorkerMove(s, t).value)
  {
  }

  lemma SpillTidy(s: State, batch: seq<Half>)
    requires Tidy(s) && Act(s, Spill(batch)).Some?
    ensures Tidy(Act(s, Spill(batch)).value)
  {
    var r := Act(s, Spill(batch)).value;
    forall k: nat | k < |r.queue|
      ensures r.queue[k] != []
    {
      assert k < |s.queue| ==> r.queue[k] == s.queue[k];
    }
  }

  lemma FlagTidy(s: State, mv: Move)
    requires Tidy(s) && (mv.Unpause? || mv.Pause?) && Act(s, mv).Some?
    ensures Tidy(Act(s, mv).value)
  {
    var r := Act(s, mv).value;
    forall t: nat | t < |r.ws|
      ensures r.ws[t].pc == s.ws[t].pc && (r.ws[t].paused ==> s.ws[t].paused)
    {
    }
  }

  lemma DriverTidy(s: State, mv: Move)
    requires Tidy(s) && !mv.Worker? && Act(s, mv).Some?
    ensures Tidy(Act(s, mv).value)
  {
    if mv.Spill? {
      SpillTidy(s, mv.batch);
    } else if mv.Unpause? || mv.Pause? {
      FlagTidy(s, mv);
    }
  }

  lemma DriverFirst(s: State, mv: Move)
    requires First(s) && !mv.Worker? && Act(s, mv).Some?
    ensures First(Act(s, mv).value)
  {
  }

  lemma ActKeeps(s: State, mv: Move)
    requires Inv(s) && Act(s, mv).Some?
    ensures Inv(Act(s, mv).value)
  {
    ActConserves(s, mv);
    if mv.Worker? {
      WorkerTidy(s, mv.t);
      WorkerFirst(s, mv.t);
    } else {
      DriverTidy(s, mv);
      DriverFirst(s, mv);
    }
  }

  function Init(threads: nat): State {
    State(Rest, false, multiset{}, [], seq(threads, _ => Worker.Worker(Getting, false, false)), multiset{}, multiset{}, 0)
  }

  lemma InitInv(threads: nat)
    ensures Inv(Init(threads))
  {
    forall h
      ensures Placed(Init(threads), h)
    {
      HeldNone(Init(threads).ws, h);
    }
  }

  /** The state after a sequence of moves, if each was possible. */
  function After(s: State, moves: seq<Move>): Option<State> {
    if moves == [] then Some(s) else
    match After(s, moves[..|moves| - 1])
    case None => None
    case Some(r) => Act(r, moves[|moves| - 1])
  }

  lemma {:induction false} EveryRun(s: State, moves: seq<Move>)
    requires Inv(s) && After(s, moves).Some?
    ensures Inv(After(s, moves).value)
  {
    if moves != [] {
      EveryRun(s, moves[..|moves| - 1]);
      ActKeeps(After(s, moves[..|moves| - 1]).value, moves[|moves| - 1]);
    }
  }

  // When a flush is complete

  /** The worker can go to sleep, or sleeps, without looking at the queue again. */
  predicate Blind(w: Worker) {
    w.pc.Failed? || w.pc.Locking? || (w.pc.Asleep? && w.paused)
  }

  predicate Watchful(s: State) {
    s.queue == [] || exists t: nat :: t < |s.ws| && !Blind(s.ws[t])
  }

  /** Only an empty queue, or a nap that shows, makes a watchful worker blind. */
  lemma StillWatching(s: State, mv: Move, t: nat)
    requires Tidy(s) && InFlush(s.main) && Act(s, mv).Some? && t < |s.ws| && !Blind(s.ws[t])
    ensures var r := Act(s, mv).value; r.queue == [] || (t < |r.ws| && !Blind(r.ws[t]))
  {
    if mv.Worker? && mv.t == t {
      assert s.ws[t].pc.Getting? || s.ws[t].pc.Working? || s.ws[t].pc.Asleep?;
    }
  }

  /** While a flush waits, the queue stays watched until it is empty. */
  lemma WatchfulStays(s: State, mv: Move)
    requires Inv(s) && Watchful(s) && InFlush(s.main) && Act(s, mv).Some?
    ensures Watchful(Act(s, mv).value)
  {
    if s.queue != [] {
      var t: nat :| t < |s.ws| && !Blind(s.ws[t]);
      StillWatching(s, mv, t);
    }
  }

  /** If a watched flush returns, everything inserted has been applied exactly once and nobody holds a batch. */
  lemma ReturnComplete(s: State)
    requires Inv(s) && Watchful(s) && Act(s, Check).Some?
    ensures var r := Act(s, Check).value;
      r.applied == r.inserted && r.queue == [] && forall t: nat | t < |r.ws| :: r.ws[t].pc.Asleep?
  {
    assert forall t: nat | t < |s.ws| :: s.ws[t].pc.Asleep? && Blind(s.ws[t]);
    forall h
      ensures s.inserted[h] == s.applied[h]
    {
      assert Placed(s, h);
      HeldNone(s.ws, h);
    }
    assert s.inserted == s.applied;
  }

  /** moves takes a flush from its start to its return. */
  predicate Flushes(s: State, moves: seq<Move>) {
    && s.main.Unblocking? && After(s, moves).Some? && After(s, moves).value.main.Rest?
    && forall i: nat | i < |moves| :: After(s, moves[..i]).Some? && InFlush(After(s, moves[..i]).value.main)
  }

  /** Whatever the schedule, the flush starting in s returns only when everything is applied. */
  ghost predicate AlwaysComplete(s: State) {
    forall moves | Flushes(s, moves) :: After(s, moves).value.applied == After(s, moves).value.inserted
  }

  lemma {:induction false} WatchfulThroughout(s: State, moves: seq<Move>, k: nat)
    requires Inv(s) && Watchful(s) && Flushes(s, moves) && k < |moves|
    ensures After(s, moves[..k]).Some? && Inv(After(s, moves[..k]).value) && Watchful(After(s, moves[..k]).value)
    decreases k
  {
    if k > 0 {
      WatchfulThroughout(s, moves, k - 1);
      assert moves[..k][..k - 1] == moves[..k - 1];
      ActKeeps(After(s, moves[..k - 1]).value, moves[k - 1]);
      WatchfulStays(After(s, moves[..k - 1]).value, moves[k - 1]);
    }
  }

  lemma OnlyCheckReturns(s: State, mv: Move)
    requires InFlush(s.main) && Act(s, mv).Some? && Act(s, mv).value.main.Rest?
    ensures mv == Check
  {
  }

  lemma WatchfulCompletes(s: State, moves: seq<Move>)
    requires Inv(s) && Watchful(s) && Flushes(s, moves)
    ensures After(s, moves).value.applied == After(s, moves).value.inserted
  {
    var m := |moves| - 1;
    WatchfulThroughout(s, moves, m);
    OnlyCheckReturns(After(s, moves[..m]).value, moves[m]);
    ReturnComplete(After(s, moves[..m]).value);
  }

  // An unwatched flush may return too early

  lemma {:induction false} AfterSnoc(s: State, moves: seq<Move>, mv: Move)
    requires After(s, moves).Some?
    ensures After(s, moves + [mv]) == Act(After(s, moves).value, mv)
  {
    assert (moves + [mv])[..|moves|] == moves;
  }

  /** moves leads from s to r without leaving the flush. */
  predicate Leads(s: State, moves: seq<Move>, r: State) {
    After(s, moves) == Some(r) && InFlush(r.main) &&
    forall i: nat | i < |moves| :: After(s, moves[..i]).Some? && InFlush(After(s, moves[..i]).value.main)
  }

  lemma LeadsSnoc(s: State, moves: seq<Move>, r: State, mv: Move)
    requires Leads(s, moves, r) && Act(r, mv).Some? && InFlush(Act(r, mv).value.main)
    ensures Leads(s, moves + [mv], Act(r, mv).value)
  {
    AfterSnoc(s, moves, mv);
    forall i: nat | i < |moves + [mv]|
      ensures After(s, (moves + [mv])[..i]).Some? && InFlush(After(s, (moves + [mv])[..i]).value.main)
    {
      assert (moves + [mv])[..i] == moves[..i];
      if i == |moves| {
        assert moves[..i] == moves;
      }
    }
  }

  /** All workers are blind, and those below i have been told to pause. */
  predicate Told(s: State, i: nat) {
    && s.queue != [] && i <= |s.ws| && (forall t: nat | t < |s.ws| :: Blind(s.ws[t]))
    && forall t: nat | t < i :: s.ws[t].doPause
  }

  lemma {:induction false} TellAll(s: State, moves: seq<Move>, r: State) returns (more: seq<Move>, q: State)
    requires Leads(s, moves, r) && r.main.Pausing? && Told(r, r.main.i)
    ensures Leads(s, more, q) && q.main.Waiting? && Told(q, |q.ws|)
    decreases |r.ws| - r.main.i
  {
    var next := Act(r, Pause).value;
    LeadsSnoc(s, moves, r, Pause);
    if r.main.i >= |r.ws| {
      more, q := moves + [Pause], next;
    } else {
      more, q := TellAll(s, moves + [Pause], next);
    }
  }

  /** Everyone below i sleeps. */
  predicate Sleeping(s: State, i: nat) {
    Told(s, |s.ws|) && i <= |s.ws| && forall t: nat | t < i :: s.ws[t].pc.Asleep? && s.ws[t].paused
  }

  lemma PutToSleep(s: State, moves: seq<Move>, r: State, i: nat) returns (more: seq<Move>, q: State)
    requires Leads(s, moves, r) && r.main.Waiting? && Sleeping(r, i) && i < |r.ws|
    ensures Leads(s, more, q) && q.main.Waiting? && Sleeping(q, i + 1) && |q.ws| == |r.ws|
  {
    more, q := moves, r;
    if q.ws[i].pc.Failed? {
      LocksUp(q, i);
      LeadsSnoc(s, more, q, Move.Worker(i));
      more, q := more + [Move.Worker(i)], Act(q, Move.Worker(i)).value;
    }
    if q.ws[i].pc.Locking? {
      FallsAsleep(q, i);
      LeadsSnoc(s, more, q, Move.Worker(i));
      more, q := more + [Move.Worker(i)], Act(q, Move.Worker(i)).value;
    }
  }

  /** A blind worker that has been told to pause goes for its lock. */
  lemma LocksUp(r: State, i: nat)
    requires r.main.Waiting? && Sleeping(r, i) && i < |r.ws| && r.ws[i].pc.Failed?
    ensures Act(r, Move.Worker(i)).Some?
    ensures var q := Act(r, Move.Worker(i)).value;
      q.main == r.main && |q.ws| == |r.ws| && Sleeping(q, i) && q.ws[i].pc.Locking?
  {
  }

  lemma FallsAsleep(r: State, i: nat)
    requires r.main.Waiting? && Sleeping(r, i) && i < |r.ws| && r.ws[i].pc.Locking?
    ensures Act(r, Move.Worker(i)).Some?
    ensures var q := Act(r, Move.Worker(i)).value;
      q.main == r.main && |q.ws| == |r.ws| && Sleeping(q, i + 1)
  {
  }

  lemma {:induction false} AllToSleep(s: State, moves: seq<Move>, r: State, i: nat) returns (more: seq<Move>, q: State)
    requires Leads(s, moves, r) && r.main.Waiting? && Sleeping(r, i)
    ensures Leads(s, more, q) && q.main.Waiting? && Sleeping(q, |q.ws|)
    decreases |r.ws| - i
  {
    if i == |r.ws| {
      more, q := moves, r;
    } else {
      more, q := PutToSleep(s, moves, r, i);
      more, q := AllToSleep(s, more, q, i + 1);
    }
  }

  /** With a batch in the queue and nobody watching, some schedule makes the flush return without it. */
  lemma UnwatchedReturns(s: State) returns (moves: seq<Move>)
    requires Inv(s) && s.main.Unblocking? && !Watchful(s)
    ensures Flushes(s, moves) && After(s, moves).value.queue != []
  {
    var r := Act(s, Block).value;
    LeadsSnoc(s, [], s, Block);
    var more, q := TellAll(s, [] + [Block], r);
    more, q := AllToSleep(s, more, q, 0);
    CheckEnds(s, more, q);
    moves := more + [Check];
  }

  lemma CheckEnds(s: State, moves: seq<Move>, r: State)
    requires s.main.Unblocking? && Leads(s, moves, r) && r.main.Waiting? && Sleeping(r, |r.ws|)
    ensures Flushes(s, moves + [Check]) && After(s, moves + [Check]).value.queue != []
  {
    var all := moves + [Check];
    AfterSnoc(s, moves, Check);
    forall i: nat | i < |all|
      ensures After(s, all[..i]).Some? && InFlush(After(s, all[..i]).value.main)
    {
      assert all[..i] == moves[..i];
      if i == |moves| {
        assert moves[..i] == moves;
      }
    }
  }

  lemma QueuedSome(queue: seq<seq<Half>>)
    requires queue != [] && queue[0] != []
    ensures Queued(queue, queue[0][0]) > 0
  {
    assert queue[0][0] in multiset(queue[0]);
  }

  /**
   * Exactly when a flush can be relied on: it starts with an empty queue, or with at least
   * one worker that will look at the queue before it goes to sleep.
   */
  lemma FlushSafeIff(s: State)
    requires Inv(s) && s.main.Unblocking?
    ensures AlwaysComplete(s) <==> Watchful(s)
  {
    if Watchful(s) {
      forall moves | Flushes(s, moves)
        ensures After(s, moves).value.applied == After(s, moves).value.inserted
      {
        WatchfulCompletes(s, moves);
      }
    } else {
      var moves := UnwatchedReturns(s);
      var r := After(s, moves).value;
      EveryRun(s, moves);
      QueuedSome(r.queue);
      assert Placed(r, r.queue[0][0]);
    }
  }

  /** The first flush can always be relied on. */
  lemma FirstFlushSafe(s: State)
    requires Inv(s) && s.main.Unblocking? && s.flushes == 0 && |s.ws| > 0
    ensures AlwaysComplete(s)
  {
    assert !Blind(s.ws[0]);
    FlushSafeIff(s);
  }
}
