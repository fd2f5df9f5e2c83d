/** The worker manager as its code keeps it: channels, the worker table, and the turns of its goroutines. */
module JobManagers {
  import opened Options
  import opened Sequences
  import opened JobDispatch

  class WorkerManager {
    const maxWorkers: nat
    var submitting: set<Req>
    var cancelled: set<Req>
    var workQueue: seq<Req>
    var workerPool: seq<WorkerId>
    var dispatcher: Dispatcher
    var workers: map<WorkerId, Worker>
    var quit: bool
    var workerQuit: set<WorkerId>
    var entered: seq<Req>
    var started: seq<Req>
    var dropped: seq<Req>
    var finished: set<Req>
    var withdrawn: set<Req>

    ghost function Model(): Jobs
      reads this
    {
      Jobs(maxWorkers, submitting, cancelled, workQueue, workerPool, dispatcher, workers, quit, workerQuit,
           entered, started, dropped, finished, withdrawn)
    }

    ghost predicate Valid()
      reads this
    {
      Inv(Model())
    }

    ghost predicate Moved(before: Jobs, step: Step)
      reads this
    {
      Enabled(before, step) && Model() == Next(before, step)
    }

    /** NewWorkerManager and Start: one worker goroutine for each of the given distinct IDs, and the dispatcher. */
    constructor (ids: seq<WorkerId>)
      requires NoRepeats(ids)
      ensures Valid() && Model() == Fresh(|ids|, set w | w in ids)
    {
      hide Inv;
      maxWorkers := |ids|;
      submitting, cancelled, workQueue, workerPool := {}, {}, [], [];
      dispatcher, quit, workerQuit := Idle, false, {};
      entered, started, dropped, finished, withdrawn := [], [], [], {}, {};
      var table := StartWorkers(ids);
      workers := table;
      new;
      assert |table| == |table.Keys|;
      assert table == Fresh(|ids|, table.Keys).workers;
      FreshInv(|ids|, table.Keys);
    }

    /** SubmitJob: turned away only by a full queue; otherwise a goroutine is left behind to submit it. */
    method SubmitJob(r: Req) returns (accepted: bool)
      requires Valid() && !Known(Model(), r)
      modifies this
      ensures Valid() && accepted == !Rejects(old(Model()))
      ensures accepted <==> |old(workQueue)| < 4 * maxWorkers
      ensures if accepted then Moved(old(Model()), Submit(r)) else Model() == old(Model())
    {
      var queueLen := |workQueue|;
      var queueCap := maxWorkers * 4;
      if queueLen >= queueCap {
        return false;
      }
      KeepsInv(Model(), Submit(r));
      submitting := submitting + {r};
      return true;
    }

    method CancelContext(r: Req)
      requires Valid()
      modifies this
      ensures Valid() && Moved(old(Model()), JobDispatch.CancelContext(r))
    {
      KeepsInv(Model(), JobDispatch.CancelContext(r));
      cancelled := cancelled + {r};
    }

    /** The submit goroutine's select. */
    method SubmitterTurn(r: Req, coin: bool) returns (taken: Option<Step>)
      requires Valid() && r in submitting
      modifies this
      ensures Valid()
      ensures taken.Some? ==> taken.value in {Enqueue(r), Withdraw(r)} && Moved(old(Model()), taken.value)
      ensures taken.None? ==> Model() == old(Model()) && !Enabled(Model(), Enqueue(r)) && !Enabled(Model(), Withdraw(r))
    {
      hide Inv;
      if |workQueue| < maxWorkers * 4 && (coin || r !in cancelled) {
        KeepsInv(Model(), Enqueue(r));
        submitting, workQueue, entered := submitting - {r}, workQueue + [r], entered + [r];
        return Some(Enqueue(r));
      } else if r in cancelled {
        KeepsInv(Model(), Withdraw(r));
        submitting, withdrawn := submitting - {r}, withdrawn + {r};
        return Some(Withdraw(r));
      }
      return None;
    }

    /** The dispatcher's next channel operation. A send meets the receive of the worker it is for. */
    method DispatcherTurn(coin: bool) returns (taken: Option<Step>)
      requires Valid()
      modifies this
      ensures Valid()
      ensures taken.Some? ==> taken.value in {Take, Pick, Deliver, QuitDispatcher} && Moved(old(Model()), taken.value)
      ensures taken.None? ==> Model() == old(Model()) && !Enabled(Model(), Take) && !Enabled(Model(), Pick)
      ensures taken.None? ==> !Enabled(Model(), Deliver) && !Enabled(Model(), QuitDispatcher)
    {
      hide Inv;
      taken := None;
      match dispatcher {
        case Idle =>
          if workQueue != [] && (coin || !quit) {
            taken := Some(Take);
            KeepsInv(Model(), Take);
            dispatcher, workQueue := Holding(workQueue[0]), workQueue[1..];
          }
        case Holding(work) =>
          if workerPool != [] && (coin || !quit) {
            taken := Some(Pick);
            KeepsInv(Model(), Pick);
            dispatcher, workerPool := Sending(work, workerPool[0]), workerPool[1..];
          }
        case Sending(work, to) =>
          if to in workers && workers[to].Waiting? {
            taken := Some(Deliver);
            KeepsInv(Model(), Deliver);
            dispatcher, workers, started := Idle, workers[to := Processing(work)], started + [work];
          }
        case HasQuit =>
      }
      if taken.None? && quit && (dispatcher.Idle? || dispatcher.Holding?) {
        taken := Some(QuitDispatcher);
        KeepsInv(Model(), QuitDispatcher);
        dropped := Held(dispatcher);
        dispatcher := HasQuit;
      }
    }

    /** A worker's next operation on its own. Registering never blocks; only a waiting worker may have to wait. */
    method WorkerTurn(w: WorkerId) returns (taken: Option<Step>)
      requires Valid() && w in workers
      modifies this
      ensures Valid()
      ensures taken.Some? ==>
        taken.value in {Register(w), LeaveWorker(w), Finish(w)} && Moved(old(Model()), taken.value)
      ensures taken.None? ==>
        Model() == old(Model()) && (workers[w].HasStopped? || (workers[w].Waiting? && w !in workerQuit))
    {
      hide Inv;
      match workers[w] {
        case Registering =>
          RegisteringNeverBlocks(Model(), w);
          KeepsInv(Model(), Register(w));
          workerPool, workers := workerPool + [w], workers[w := Waiting];
          return Some(Register(w));
        case Processing(work) =>
          KeepsInv(Model(), Finish(w));
          workers, finished := workers[w := Registering], finished + {work};
          return Some(Finish(w));
        case Waiting =>
          if w in workerQuit {
            KeepsInv(Model(), LeaveWorker(w));
            workers := workers[w := HasStopped];
            return Some(LeaveWorker(w));
          }
          return None;
        case HasStopped =>
          return None;
      }
    }

    /** Stop: the dispatcher's quit first, then each worker's; closing either again is avoided. */
    method Stop() returns (already: bool)
      requires Valid()
      modifies this
      ensures Valid() && already == old(quit) && quit
      ensures Model() ==
        old(Model()).(quit := true, workerQuit := if already then old(workerQuit) else old(workerQuit) + workers.Keys)
    {
      hide Inv;
      if quit {
        return true;
      }
      KeepsInv(Model(), CloseQuit);
      quit := true;
      var left := workers.Keys;
      while left != {}
        invariant Valid() && left <= workers.Keys
        invariant Model() == old(Model()).(quit := true, workerQuit := old(workerQuit) + (workers.Keys - left))
      {
        hide Inv;
        var w :| w in left;
        StopWorker(w);
        left := left - {w};
        assert workerQuit == old(workerQuit) + (workers.Keys - left);
      }
      assert workers.Keys - left == workers.Keys;
      return false;
    }

    /** Tells one worker to leave once it waits. */
    method StopWorker(w: WorkerId)
      requires Valid() && quit && w in workers
      modifies this
      ensures Valid() && Model() == old(Model()).(workerQuit := old(workerQuit) + {w})
    {
      hide Inv;
      KeepsInv(Model(), CloseWorkerQuit(w));
      workerQuit := workerQuit + {w};
    }

    predicate Resting()
      reads this
    {
      submitting == {} && workQueue == [] && dispatcher.Idle? && forall w <- workers.Keys :: workers[w].Waiting?
    }

    /** Whether the dispatcher's next channel operation can go ahead before Stop. */
    predicate DispatcherReady()
      reads this
    {
      match dispatcher
      case Idle => workQueue != []
      case Holding(_) => workerPool != []
      case Sending(_, w) => w in workers && workers[w].Waiting?
      case HasQuit => false
    }

    /** One turn of any goroutine that can move; a cancelled submit goroutine may withdraw. */
    method Turn()
      requires Valid() && !quit && maxWorkers >= 1 && !Resting()
      modifies this
      ensures Valid() && !quit
      ensures Rank(Model()) < Rank(old(Model())) && Later(old(Model()), Model())
    {
      hide Inv, Rank, Next, Enabled, Later;
      ghost var before := Model();
      NotStopped(before);
      SomeoneMoves(before);
      var coin: bool := *;
      var taken: Option<Step>;
      if {
        case w :| w in workers && !workers[w].Waiting? =>
          OnlyWaitingLeave(before, w);
          taken := WorkerTurn(w);
        case r :| r in submitting && (|workQueue| < maxWorkers * 4 || r in cancelled) =>
          SubmitterMoves(before, r);
          taken := SubmitterTurn(r, coin);
          assert taken.Some?;
        case DispatcherReady() =>
          DispatcherMoves(before);
          taken := DispatcherTurn(coin);
          assert taken.Some?;
      }
      Shrinks(before, taken.value);
    }

    /**
     * The loops of the dispatcher, the workers and the submit goroutines, taking turns in any order until none can
     * move. Before Stop they always come to rest, and then every request submitted has been processed or withdrawn.
     */
    method RunToRest()
      requires Valid() && !quit && maxWorkers >= 1
      modifies this
      ensures Valid() && forall r :: Known(old(Model()), r) ==> r in finished || r in withdrawn
      ensures NoRepeats(started) && old(started) <= started <= entered && old(entered) <= entered
    {
      hide Inv, Rank, Later;
      ghost var start := Model();
      LaterSelf(start);
      while !Resting()
        invariant Valid() && !quit && Later(start, Model())
        decreases Rank(Model())
      {
        hide Inv, Rank, Later;
        ghost var before := Model();
        Turn();
        LaterThen(start, before, Model());
      }
      AtRest(Model());
      AllDone(start, Model());
    }
  }

  /** Start's loop: a goroutine for each worker, about to register. */
  method StartWorkers(ids: seq<WorkerId>) returns (table: map<WorkerId, Worker>)
    requires NoRepeats(ids)
    ensures table.Keys == (set w | w in ids) && |table| == |ids| && forall w <- table.Keys :: table[w] == Registering
  {
    table := map[];
    for i := 0 to |ids|
      invariant table.Keys == (set w | w in ids[..i]) && |table| == i
      invariant forall w <- table.Keys :: table[w] == Registering
    {
      assert ids[i] !in table;
      table := table[ids[i] := Registering];
      assert ids[..i + 1] == ids[..i] + [ids[i]];
    }
    assert ids[..|ids|] == ids;
  }

  /** `t` is further along than `s`. */
  ghost predicate Later(s: Jobs, t: Jobs) {
    && (forall r :: Known(s, r) ==> Known(t, r))
    && s.started <= t.started && s.entered <= t.entered
  }

  lemma LaterSelf(s: Jobs)
    ensures Later(s, s)
  {}

  lemma LaterThen(s: Jobs, t: Jobs, u: Jobs)
    requires Later(s, t) && Later(t, u)
    ensures Later(s, u)
  {}

  lemma AllDone(s: Jobs, t: Jobs)
    requires Later(s, t) && forall r :: Known(t, r) ==> r in t.finished || r in t.withdrawn
    ensures forall r :: Known(s, r) ==> r in t.finished || r in t.withdrawn
    ensures s.started <= t.started && s.entered <= t.entered
  {}

  lemma OnlyWaitingLeave(s: Jobs, w: WorkerId)
    ensures Enabled(s, LeaveWorker(w)) ==> w in s.workers && s.workers[w].Waiting?
  {}

  lemma SubmitterMoves(s: Jobs, r: Req)
    ensures Enabled(s, Enqueue(r)) <==> r in s.submitting && |s.queue| < 4 * s.max
    ensures Enabled(s, Withdraw(r)) <==> r in s.submitting && r in s.cancelled
  {}

  /** A turn before Stop brings the manager nearer to rest, unless it closes something. */
  lemma Shrinks(s: Jobs, step: Step)
    requires Inv(s) && Enabled(s, step) && (!s.quit ==> Internal(step) || step.Withdraw?)
    ensures !s.quit ==> Rank(Next(s, step)) < Rank(s)
    ensures !s.quit ==> !Next(s, step).quit
    ensures Later(s, Next(s, step))
  {
    if Internal(step) { InternalShrinks(s, step); }
  }

  lemma NotStopped(s: Jobs)
    requires Inv(s) && !s.quit
    ensures forall w <- s.workers.Keys :: !s.workers[w].HasStopped?
    ensures !s.dispatcher.HasQuit?
  {}

  predicate DispatcherCan(s: Jobs) {
    match s.dispatcher
    case Idle => s.queue != []
    case Holding(_) => s.idle != []
    case Sending(_, w) => w in s.workers && s.workers[w].Waiting?
    case HasQuit => false
  }

  lemma DispatcherMoves(s: Jobs)
    requires DispatcherCan(s)
    ensures Enabled(s, Take) || Enabled(s, Pick) || Enabled(s, Deliver)
    ensures !s.quit ==> !Enabled(s, QuitDispatcher)
  {}

  /** Before Stop, a manager that is not at rest has a goroutine that can move. */
  lemma SomeoneMoves(s: Jobs)
    requires Inv(s) && !s.quit && s.max >= 1
    requires s.submitting != {} || s.queue != [] || !s.dispatcher.Idle?
      || exists w :: w in s.workers && !s.workers[w].Waiting?
    ensures (exists w :: w in s.workers && !s.workers[w].Waiting?) || DispatcherCan(s)
      || exists r :: r in s.submitting && (|s.queue| < 4 * s.max || r in s.cancelled)
  {
    if forall w :: w in s.workers ==> s.workers[w].Waiting? {
      if s.dispatcher.Holding? {
        var w :| w in s.workers;
        assert w in s.idle;
      } else if s.dispatcher.Idle? && s.queue == [] {
        var r :| r in s.submitting;
      }
    }
  }

  lemma AtRest(s: Jobs)
    requires Inv(s) && s.submitting == {} && s.queue == [] && s.dispatcher.Idle?
    requires forall w :: w in s.workers ==> s.workers[w].Waiting?
    ensures forall r :: Known(s, r) ==> r in s.finished || r in s.withdrawn
    ensures NoRepeats(s.started) && s.started <= s.entered
  {
    assert s.entered == s.started;
  }
}
