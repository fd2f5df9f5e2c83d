/**
 * The job dispatcher as a transition system: submit goroutines, the work queue, the channel of idle workers' job
 * channels, one dispatcher and the workers, each step one channel operation.
 */
module JobDispatch {
  import opened Sums
  import opened Sequences

  type Req = nat
  type WorkerId = nat

  datatype Dispatcher = Idle | Holding(req: Req) | Sending(req: Req, to: WorkerId) | HasQuit

  datatype Worker = Registering | Waiting | Processing(req: Req) | HasStopped

  /** Where an accepted request is. */
  datatype Place = Submitting | Queued | AtDispatcher | AtWorker(w: WorkerId) | Done | Withdrawn | Dropped

  datatype Jobs = Jobs(
    max: nat,
    submitting: set<Req>,             // goroutines in SubmitJob's select
    cancelled: set<Req>,              // requests whose context is done
    queue: seq<Req>,                  // workQueue, capacity 4 * max
    idle: seq<WorkerId>,              // workerPool, capacity max: the workers whose job channel is in it
    dispatcher: Dispatcher,
    workers: map<WorkerId, Worker>,
    quit: bool,                       // wm.quit is closed
    workerQuit: set<WorkerId>,        // workers whose Quit is closed
    entered: seq<Req>,                // every request ever sent on workQueue, in order
    started: seq<Req>,                // every start of processWork, in order
    dropped: seq<Req>,                // what the dispatcher held when it quit
    finished: set<Req>,
    withdrawn: set<Req>
  )

  datatype Step =
    | Submit(r: Req)
    | CancelContext(r: Req)
    | Enqueue(r: Req)
    | Withdraw(r: Req)
    | Take
    | Pick
    | Deliver
    | Register(w: WorkerId)
    | Finish(w: WorkerId)
    | CloseQuit
    | QuitDispatcher
    | CloseWorkerQuit(w: WorkerId)
    | LeaveWorker(w: WorkerId)

  function Fresh(max: nat, ids: set<WorkerId>): Jobs {
    Jobs(max, {}, {}, [], [], Idle, map w | w in ids :: Registering, false, {}, [], [], [], {}, {})
  }

  /** SubmitJob turns the request away: the queue is at capacity. */
  predicate Rejects(s: Jobs) { |s.queue| >= 4 * s.max }

  predicate Known(s: Jobs, r: Req) {
    r in s.submitting || r in s.entered || r in s.withdrawn
  }

  predicate IsWorker(s: Jobs, w: WorkerId, state: Worker) { w in s.workers && s.workers[w] == state }

  predicate Enabled(s: Jobs, step: Step) {
    match step
    case Submit(r) => !Known(s, r) && !Rejects(s)
    case CancelContext(_) => true
    case Enqueue(r) => r in s.submitting && |s.queue| < 4 * s.max
    case Withdraw(r) => r in s.submitting && r in s.cancelled
    case Take => s.dispatcher.Idle? && s.queue != []
    case Pick => s.dispatcher.Holding? && s.idle != []
    case Deliver => s.dispatcher.Sending? && IsWorker(s, s.dispatcher.to, Waiting)
    case Register(w) => IsWorker(s, w, Registering) && |s.idle| < s.max
    case Finish(w) => w in s.workers && s.workers[w].Processing?
    case CloseQuit => !s.quit
    case QuitDispatcher => s.quit && (s.dispatcher.Idle? || s.dispatcher.Holding?)
    case CloseWorkerQuit(w) => s.quit && w in s.workers
    case LeaveWorker(w) => IsWorker(s, w, Waiting) && w in s.workerQuit
  }

  function Next(s: Jobs, step: Step): Jobs
    requires Enabled(s, step)
  {
    match step
    case Submit(r) => s.(submitting := s.submitting + {r})
    case CancelContext(r) => s.(cancelled := s.cancelled + {r})
    case Enqueue(r) => s.(submitting := s.submitting - {r}, queue := s.queue + [r], entered := s.entered + [r])
    case Withdraw(r) => s.(submitting := s.submitting - {r}, withdrawn := s.withdrawn + {r})
    case Take => s.(queue := s.queue[1..], dispatcher := Holding(s.queue[0]))
    case Pick => s.(idle := s.idle[1..], dispatcher := Sending(s.dispatcher.req, s.idle[0]))
    case Deliver =>
      s.(dispatcher := Idle, workers := s.workers[s.dispatcher.to := Processing(s.dispatcher.req)],
         started := s.started + [s.dispatcher.req])
    case Register(w) => s.(idle := s.idle + [w], workers := s.workers[w := Waiting])
    case Finish(w) => s.(workers := s.workers[w := Registering], finished := s.finished + {s.workers[w].req})
    case CloseQuit => s.(quit := true)
    case QuitDispatcher => s.(dispatcher := HasQuit, dropped := Held(s.dispatcher))
    case CloseWorkerQuit(w) => s.(workerQuit := s.workerQuit + {w})
    case LeaveWorker(w) => s.(workers := s.workers[w := HasStopped])
  }

  ghost predicate Runs(s: Jobs, run: seq<Step>)
    decreases |run|
  {
    run == [] || (Enabled(s, run[0]) && Runs(Next(s, run[0]), run[1..]))
  }

  ghost function EndOf(s: Jobs, run: seq<Step>): Jobs
    requires Runs(s, run)
    decreases |run|
  {
    if run == [] then s else EndOf(Next(s, run[0]), run[1..])
  }

  function Held(d: Dispatcher): seq<Req> {
    if d.Holding? || d.Sending? then [d.req] else []
  }

  // ---------------------------------------------------------------- invariant

  /** A registration is in the channel or in the dispatcher's hands exactly while its worker waits, or has left. */
  ghost predicate RegistrationsMatch(s: Jobs) {
    && |s.workers| == s.max
    && NoRepeats(s.idle)
    && (forall w <- s.idle :: w in s.workers)
    && (s.dispatcher.Sending? ==> s.dispatcher.to in s.workers && s.dispatcher.to !in s.idle)
    && (forall w <- s.workers.Keys ::
          (if w in s.idle || (s.dispatcher.Sending? && s.dispatcher.to == w)
           then s.workers[w].Waiting? || s.workers[w].HasStopped?
           else !s.workers[w].Waiting?))
    && (forall w <- s.workers.Keys :: s.workers[w].HasStopped? ==> w in s.workerQuit)
    && (s.workerQuit != {} ==> s.quit)
    && (s.dispatcher.HasQuit? ==> s.quit)
  }

  /** Requests leave the queue in the order in which they came in, each to be started once. */
  ghost predicate OrderKept(s: Jobs) {
    && s.entered == s.started + Held(s.dispatcher) + s.dropped + s.queue
    && NoRepeats(s.entered)
    && (s.dropped != [] ==> s.dispatcher.HasQuit?)
    && |s.queue| <= 4 * s.max
    && s.submitting !! s.withdrawn
    && (forall r <- s.entered :: r !in s.submitting && r !in s.withdrawn)
  }

  /** A started request is being processed by one worker or has been finished. */
  ghost predicate WorkMatches(s: Jobs) {
    && (forall w <- s.workers.Keys ::
      s.workers[w].Processing? ==> s.workers[w].req in s.started && s.workers[w].req !in s.finished)
    && (forall v <- s.workers.Keys, w <- s.workers.Keys ::
          s.workers[v].Processing? && s.workers[w].Processing? && s.workers[v].req == s.workers[w].req ==> v == w)
    && (forall r <- s.finished :: r in s.started)
    && (forall r <- s.started :: r in s.finished || exists w <- s.workers.Keys :: s.workers[w] == Processing(r))
  }

  ghost predicate Inv(s: Jobs) { RegistrationsMatch(s) && OrderKept(s) && WorkMatches(s) }

  lemma FreshInv(max: nat, ids: set<WorkerId>)
    requires |ids| == max
    ensures Inv(Fresh(max, ids))
  {
    assert Fresh(max, ids).workers.Keys == ids;
  }

  lemma KeepsRegistrations(s: Jobs, step: Step)
    requires Inv(s) && Enabled(s, step)
    ensures RegistrationsMatch(Next(s, step))
  {
    hide OrderKept, WorkMatches;
    if step.Pick? {
      PickKeeps(s);
    } else if step.Register? || step.Finish? || step.LeaveWorker? || step.Deliver? {
      WorkerKeeps(s, step);
    } else {
      assert Next(s, step).idle == s.idle && Next(s, step).workers == s.workers;
    }
  }

  lemma PickKeeps(s: Jobs)
    requires RegistrationsMatch(s) && Enabled(s, Pick)
    ensures RegistrationsMatch(Next(s, Pick))
  {
    assert s.idle == [s.idle[0]] + s.idle[1..];
    assert s.idle[0] in s.idle;
  }

  lemma WorkerKeeps(s: Jobs, step: Step)
    requires RegistrationsMatch(s) && Enabled(s, step)
    requires step.Register? || step.Finish? || step.LeaveWorker? || step.Deliver?
    ensures RegistrationsMatch(Next(s, step))
  {
    SameKeys(s, step);
    if step.Register? { AppendFresh(s.idle, step.w); }
  }

  lemma SameKeys(s: Jobs, step: Step)
    requires RegistrationsMatch(s) && Enabled(s, step)
    ensures Next(s, step).workers.Keys == s.workers.Keys && |Next(s, step).workers| == s.max
  {
    var t := Next(s, step);
    assert t.workers.Keys == s.workers.Keys;
    assert |t.workers| == |t.workers.Keys| && |s.workers| == |s.workers.Keys|;
  }

  lemma KeepsOrder(s: Jobs, step: Step)
    requires Inv(s) && Enabled(s, step)
    ensures OrderKept(Next(s, step))
  {
    hide RegistrationsMatch, WorkMatches;
    if step.Take? {
      assert s.queue == [s.queue[0]] + s.queue[1..];
    } else if step.Enqueue? {
      AppendFresh(s.entered, step.r);
    }
  }

  /** What is in the dispatcher's hands has not been started. */
  lemma HeldIsNew(s: Jobs)
    requires OrderKept(s) && Held(s.dispatcher) != []
    ensures s.dispatcher.req !in s.started && s.dispatcher.req in s.entered
  {
    var n := |s.started|;
    assert s.entered[n] == s.dispatcher.req;
    assert forall i :: 0 <= i < n ==> s.entered[i] == s.started[i];
  }

  lemma DeliverKeepsWork(s: Jobs)
    requires Inv(s) && Enabled(s, Deliver)
    ensures WorkMatches(Next(s, Deliver))
  {
    HeldIsNew(s);
    hide OrderKept, RegistrationsMatch;
    var t := Next(s, Deliver);
    var r, to := s.dispatcher.req, s.dispatcher.to;
    assert t.workers[to] == Processing(r);
    forall q <- t.started ensures q in t.finished || exists w <- t.workers.Keys :: t.workers[w] == Processing(q) {
      if q != r && q !in s.finished {
        var w :| w in s.workers && s.workers[w] == Processing(q);
        assert w in t.workers && t.workers[w] == Processing(q);
      }
    }
  }

  lemma WorkerKeepsWork(s: Jobs, step: Step)
    requires Inv(s) && Enabled(s, step) && (step.Register? || step.LeaveWorker? || step.Finish?)
    ensures WorkMatches(Next(s, step))
  {
    hide OrderKept, RegistrationsMatch;
    var t := Next(s, step);
    forall q <- t.started ensures q in t.finished || exists w <- t.workers.Keys :: t.workers[w] == Processing(q) {
      if q !in t.finished {
        var w :| w in s.workers && s.workers[w] == Processing(q);
        assert w in t.workers && t.workers[w] == Processing(q);
      }
    }
  }

  lemma KeepsWork(s: Jobs, step: Step)
    requires Inv(s) && Enabled(s, step)
    ensures WorkMatches(Next(s, step))
  {
    if step.Deliver? {
      DeliverKeepsWork(s);
    } else if step.Register? || step.LeaveWorker? || step.Finish? {
      WorkerKeepsWork(s, step);
    } else {
      hide OrderKept, RegistrationsMatch;
      assert Next(s, step).workers == s.workers && Next(s, step).started == s.started
        && Next(s, step).finished == s.finished;
    }
  }

  lemma KeepsInv(s: Jobs, step: Step)
    requires Inv(s) && Enabled(s, step)
    ensures Inv(Next(s, step))
  {
    KeepsRegistrations(s, step);
    KeepsOrder(s, step);
    KeepsWork(s, step);
  }

  lemma {:induction false} RunKeepsInv(s: Jobs, run: seq<Step>)
    requires Inv(s) && Runs(s, run)
    ensures Inv(EndOf(s, run))
    decreases |run|
  {
    if run != [] {
      KeepsInv(s, run[0]);
      RunKeepsInv(Next(s, run[0]), run[1..]);
    }
  }

  // ---------------------------------------------------------------- conservation

  /** Request `r` is at `place`, by the channel, variable or set that place stands for. */
  ghost predicate IsAt(s: Jobs, r: Req, place: Place) {
    match place
    case Submitting => r in s.submitting
    case Queued => r in s.queue
    case AtDispatcher => r in Held(s.dispatcher)
    case AtWorker(w) => IsWorker(s, w, Processing(r))
    case Done => r in s.finished
    case Withdrawn => r in s.withdrawn
    case Dropped => r in s.dropped
  }

  /** The four stretches of `entered` share no request. */
  lemma Stretches(s: Jobs, r: Req)
    requires OrderKept(s)
    ensures r in s.entered <==> r in s.started || r in Held(s.dispatcher) || r in s.dropped || r in s.queue
    ensures !(r in s.started && r in Held(s.dispatcher)) && !(r in s.started && r in s.dropped)
      && !(r in s.started && r in s.queue)
    ensures !(r in Held(s.dispatcher) && r in s.dropped) && !(r in Held(s.dispatcher) && r in s.queue)
    ensures !(r in s.dropped && r in s.queue)
  {
    var a := s.started + Held(s.dispatcher);
    var b := a + s.dropped;
    Apart(s.started, Held(s.dispatcher), s.dropped + s.queue, s.entered, r);
    Apart(a, s.dropped, s.queue, s.entered, r);
  }

  lemma Apart(a: seq<Req>, b: seq<Req>, c: seq<Req>, all: seq<Req>, r: Req)
    requires all == a + b + c && NoRepeats(all)
    ensures !(r in a && r in b) && !(r in a && r in c) && !(r in b && r in c)
  {
    assert forall i :: 0 <= i < |a| ==> a[i] == all[i];
    assert forall j :: 0 <= j < |b| ==> b[j] == all[|a| + j];
    assert forall k :: 0 <= k < |c| ==> c[k] == all[|a| + |b| + k];
    assert forall i, j :: 0 <= i < |a| && 0 <= j < |b| ==> a[i] != b[j];
    assert forall i, k :: 0 <= i < |a| && 0 <= k < |c| ==> a[i] != c[k];
    assert forall j, k :: 0 <= j < |b| && 0 <= k < |c| ==> b[j] != c[k];
  }

  /** Conservation: over every run each request ever submitted is at exactly one place. */
  lemma OnePlaceEach(max: nat, ids: set<WorkerId>, run: seq<Step>, r: Req) returns (place: Place)
    requires |ids| == max && Runs(Fresh(max, ids), run) && Known(EndOf(Fresh(max, ids), run), r)
    ensures var s := EndOf(Fresh(max, ids), run);
      IsAt(s, r, place) && forall other :: IsAt(s, r, other) ==> other == place
  {
    FreshInv(max, ids);
    RunKeepsInv(Fresh(max, ids), run);
    place := PlaceOf(EndOf(Fresh(max, ids), run), r);
  }

  lemma PlaceOf(s: Jobs, r: Req) returns (place: Place)
    requires Inv(s) && Known(s, r)
    ensures IsAt(s, r, place)
    ensures forall other :: IsAt(s, r, other) ==> other == place
  {
    Stretches(s, r);
    hide OrderKept, RegistrationsMatch;
    if r in s.submitting {
      place := Submitting;
    } else if r in s.withdrawn {
      place := Withdrawn;
    } else if r in s.queue {
      place := Queued;
    } else if r in Held(s.dispatcher) {
      place := AtDispatcher;
    } else if r in s.dropped {
      place := Dropped;
    } else if r in s.finished {
      place := Done;
    } else {
      var w :| w in s.workers && s.workers[w] == Processing(r);
      place := AtWorker(w);
    }
    Exclusive(s, r, place);
  }

  lemma Exclusive(s: Jobs, r: Req, place: Place)
    requires Inv(s) && IsAt(s, r, place)
    ensures forall other :: IsAt(s, r, other) ==> other == place
  {
    forall other | IsAt(s, r, other) ensures other == place {
      Stretches(s, r);
      assert r in s.entered ==> r !in s.submitting && r !in s.withdrawn;
      hide OrderKept, RegistrationsMatch;
    }
  }

  /** Every request is processed at most once, and processing starts in work-queue order. */
  lemma ProcessedOnceInOrder(max: nat, ids: set<WorkerId>, run: seq<Step>)
    requires |ids| == max && Runs(Fresh(max, ids), run)
    ensures NoRepeats(EndOf(Fresh(max, ids), run).started)
    ensures EndOf(Fresh(max, ids), run).started <= EndOf(Fresh(max, ids), run).entered
  {
    FreshInv(max, ids);
    RunKeepsInv(Fresh(max, ids), run);
    var s := EndOf(Fresh(max, ids), run);
    assert forall i :: 0 <= i < |s.started| ==> s.entered[i] == s.started[i];
  }

  // ---------------------------------------------------------------- hand-off

  /** A worker's registration never blocks: the channel has a slot for each worker, and each has one outstanding. */
  lemma RegisteringNeverBlocks(s: Jobs, w: WorkerId)
    requires Inv(s) && IsWorker(s, w, Registering)
    ensures Enabled(s, Register(w))
  {
    hide OrderKept, WorkMatches;
    assert w !in s.idle;
    DistinctFit(s.idle, s.workers.Keys - {w});
    assert |s.workers.Keys| == s.max;
  }

  /**
   * The dispatcher's send finds its receiver ready exactly when that worker has not been stopped; so always before
   * Stop.
   */
  lemma SendHasReceiver(s: Jobs)
    requires Inv(s) && s.dispatcher.Sending?
    ensures Enabled(s, Deliver) <==> !s.workers[s.dispatcher.to].HasStopped?
    ensures !s.quit ==> Enabled(s, Deliver)
  {}

  /** A dispatcher whose receiver has stopped is stuck for good, and its request is never started. */
  lemma {:induction false} StuckForGood(s: Jobs, run: seq<Step>)
    requires Inv(s) && s.dispatcher.Sending? && s.workers[s.dispatcher.to].HasStopped? && Runs(s, run)
    ensures EndOf(s, run).dispatcher == s.dispatcher && s.dispatcher.req !in EndOf(s, run).started
    decreases |run|
  {
    if run == [] {
      HeldIsNew(s);
    } else {
      KeepsInv(s, run[0]);
      StuckForGood(Next(s, run[0]), run[1..]);
    }
  }

  /** The only worker's registration is in the dispatcher's hands, with a request to go with it. */
  const BEFORE_SEND: Jobs := Jobs(1, {}, {}, [], [], Sending(7, 0), map[0 := Waiting], false, {}, [7], [], [], {}, {})

  lemma AlmostSent() returns (run: seq<Step>)
    ensures Runs(Fresh(1, {0}), run) && EndOf(Fresh(1, {0}), run) == BEFORE_SEND
  {
    hide Runs, EndOf;
    var s0 := Fresh(1, {0});
    assert s0.workers == map[0 := Registering];
    var s: Jobs;
    StartRun(s0);
    run, s := Then(s0, [], s0, Register(0));
    assert s.idle == [0] && s.workers == map[0 := Waiting];
    run, s := Then(s0, run, s, Submit(7));
    run, s := Then(s0, run, s, Enqueue(7));
    assert s.submitting == {} && s.queue == [7] && s.entered == [7];
    run, s := Then(s0, run, s, Take);
    assert s.queue == [];
    run, s := Then(s0, run, s, Pick);
  }

  lemma StartRun(s: Jobs)
    ensures Runs(s, []) && EndOf(s, []) == s
  {}

  /** Stop can bring that about: with one worker and one request, Stop between the dispatcher's receive and its send. */
  lemma StopCanStrandARequest() returns (run: seq<Step>, s: Jobs)
    ensures Runs(Fresh(1, {0}), run) && s == EndOf(Fresh(1, {0}), run)
    ensures s.dispatcher == Sending(7, 0) && IsWorker(s, 0, HasStopped)
  {
    hide Runs, EndOf;
    var s0 := Fresh(1, {0});
    run := AlmostSent();
    run, s := Then(s0, run, BEFORE_SEND, CloseQuit);
    run, s := Then(s0, run, s, CloseWorkerQuit(0));
    run, s := Then(s0, run, s, LeaveWorker(0));
  }

  lemma {:induction false} Then(s0: Jobs, run: seq<Step>, s: Jobs, step: Step) returns (longer: seq<Step>, after: Jobs)
    requires Runs(s0, run) && EndOf(s0, run) == s && Enabled(s, step)
    ensures Runs(s0, longer) && EndOf(s0, longer) == after == Next(s, step)
    decreases |run|
  {
    longer, after := run + [step], Next(s, step);
    if run == [] {
      assert longer[1..] == [];
    } else {
      var rest, _ := Then(Next(s0, run[0]), run[1..], s, step);
      longer := [run[0]] + rest;
      assert longer[1..] == rest;
    }
  }

  // ---------------------------------------------------------------- progress

  /** A step the manager takes by itself. */
  predicate Internal(step: Step) {
    step.Enqueue? || step.Take? || step.Pick? || step.Deliver? || step.Register? || step.Finish?
  }

  function Weight(w: Worker): nat {
    match w
    case Registering => 1
    case Processing(_) => 2
    case _ => 0
  }

  ghost function Rank(s: Jobs): nat {
    6 * |s.submitting| + 5 * |s.queue|
    + (if s.dispatcher.Holding? then 4 else if s.dispatcher.Sending? then 3 else 0)
    + Total(s.workers, Weight)
  }

  lemma InternalShrinks(s: Jobs, step: Step)
    requires Enabled(s, step) && Internal(step)
    ensures Rank(Next(s, step)) < Rank(s)
  {
    match step
    case Deliver => TotalUpdate(s.workers, s.dispatcher.to, Processing(s.dispatcher.req), Weight);
    case Register(w) => TotalUpdate(s.workers, w, Waiting, Weight);
    case Finish(w) => TotalUpdate(s.workers, w, Registering, Weight);
    case _ =>
  }

  /** A request still on its way. */
  ghost predicate Open(s: Jobs, r: Req) { Known(s, r) && r !in s.finished && r !in s.withdrawn }

  /** Before Stop, an open request means that the manager can move by itself. */
  lemma NeverStuck(s: Jobs, r: Req) returns (step: Step)
    requires Inv(s) && s.max >= 1 && !s.quit && Open(s, r)
    ensures Enabled(s, step) && Internal(step)
  {
    if w :| w in s.workers && s.workers[w].Processing? {
      step := Finish(w);
    } else if w :| w in s.workers && s.workers[w].Registering? {
      RegisteringNeverBlocks(s, w);
      step := Register(w);
    } else if s.dispatcher.Sending? {
      step := Deliver;
    } else if s.dispatcher.Holding? {
      var w :| w in s.workers;
      assert w in s.idle;
      step := Pick;
    } else if s.queue != [] {
      step := Take;
    } else {
      Stretches(s, r);
      assert r in s.submitting;
      step := Enqueue(r);
    }
  }

  ghost predicate InternalRun(run: seq<Step>) { forall i :: 0 <= i < |run| ==> Internal(run[i]) }

  /** Left alone before Stop, the manager comes to rest, and then every request is finished or withdrawn. */
  lemma {:induction false} Drains(s: Jobs, run: seq<Step>)
    requires Inv(s) && s.max >= 1 && !s.quit && Runs(s, run) && InternalRun(run)
    ensures |run| <= Rank(s)
    ensures (forall step :: Enabled(EndOf(s, run), step) ==> !Internal(step)) ==>
      forall r :: Known(EndOf(s, run), r) ==> r in EndOf(s, run).finished || r in EndOf(s, run).withdrawn
    decreases |run|
  {
    if run == [] {
      if forall step :: Enabled(s, step) ==> !Internal(step) {
        forall r | Known(s, r) ensures r in s.finished || r in s.withdrawn {
          if Open(s, r) { var step := NeverStuck(s, r); assert false; }
        }
      }
    } else {
      assert Internal(run[0]);
      KeepsInv(s, run[0]);
      InternalShrinks(s, run[0]);
      assert InternalRun(run[1..]);
      Drains(Next(s, run[0]), run[1..]);
    }
  }

  // ---------------------------------------------------------------- when Stop is safe

  /** The dispatcher sends for good to a worker that has left. */
  predicate Stranded(s: Jobs) { s.dispatcher.Sending? && IsWorker(s, s.dispatcher.to, HasStopped) }

  ghost predicate NoSubmit(run: seq<Step>) { forall i :: 0 <= i < |run| ==> !run[i].Submit? }

  /** Nothing is on its way to a worker: no submit goroutine, no queued request, none in the dispatcher's hands. */
  predicate Quiet(s: Jobs) { s.submitting == {} && s.queue == [] && Held(s.dispatcher) == [] }

  /** No run without a new submission, whatever Stop does in it, strands the dispatcher. */
  ghost predicate NeverStranded(s: Jobs) {
    forall run | Runs(s, run) && NoSubmit(run) :: !Stranded(EndOf(s, run))
  }

  lemma {:induction false} QuietIsSafe(s: Jobs, run: seq<Step>)
    requires Quiet(s) && Runs(s, run) && NoSubmit(run)
    ensures Quiet(EndOf(s, run))
    decreases |run|
  {
    if run != [] {
      assert !run[0].Submit?;
      assert forall i :: 0 <= i < |run[1..]| ==> run[1..][i] == run[i + 1];
      QuietIsSafe(Next(s, run[0]), run[1..]);
    }
  }

  /** The next of the manager's own steps that brings a pending request nearer to a send. */
  lemma TowardsSend(s: Jobs) returns (step: Step)
    requires Inv(s) && s.max >= 1 && !s.quit && !Quiet(s) && !s.dispatcher.Sending?
    ensures Enabled(s, step) && Internal(step) && !step.Deliver? && !Quiet(Next(s, step)) && !Next(s, step).quit
  {
    if s.dispatcher.Holding? {
      if s.idle != [] {
        step := Pick;
      } else {
        assert |s.workers.Keys| == s.max;
        var w :| w in s.workers;
        assert !s.workers[w].Waiting? && !s.workers[w].HasStopped?;
        if s.workers[w].Registering? {
          RegisteringNeverBlocks(s, w);
          step := Register(w);
        } else {
          step := Finish(w);
        }
      }
    } else if s.queue != [] {
      step := Take;
    } else {
      var r :| r in s.submitting;
      step := Enqueue(r);
    }
  }

  /** Puts one step in front of a run. */
  lemma Before(s: Jobs, step: Step, run: seq<Step>) returns (longer: seq<Step>)
    requires Enabled(s, step) && !step.Submit? && Runs(Next(s, step), run) && NoSubmit(run)
    ensures Runs(s, longer) && NoSubmit(longer) && EndOf(s, longer) == EndOf(Next(s, step), run)
  {
    longer := [step] + run;
    assert longer[1..] == run;
  }

  /** Stop while the dispatcher is at its send: the worker leaves first. */
  lemma StopsAtSend(s: Jobs) returns (run: seq<Step>)
    requires Inv(s) && !s.quit && s.dispatcher.Sending?
    ensures Runs(s, run) && NoSubmit(run) && Stranded(EndOf(s, run))
  {
    var w := s.dispatcher.to;
    var s1 := Next(s, CloseQuit);
    var s2 := Next(s1, CloseWorkerQuit(w));
    var s3 := Next(s2, LeaveWorker(w));
    assert Runs(s3, []) && EndOf(s3, []) == s3;
    hide Runs, EndOf, Next, Inv;
    run := Before(s2, LeaveWorker(w), []);
    run := Before(s1, CloseWorkerQuit(w), run);
    run := Before(s, CloseQuit, run);
  }

  /** With anything pending, some run gets as far as a send and then stops. */
  lemma {:induction false} PendingCanStrand(s: Jobs) returns (run: seq<Step>)
    requires Inv(s) && s.max >= 1 && !s.quit && !Quiet(s)
    ensures Runs(s, run) && NoSubmit(run) && Stranded(EndOf(s, run))
    decreases Rank(s)
  {
    hide Inv, Quiet, Next, Runs, EndOf, NoSubmit, Rank;
    if s.dispatcher.Sending? {
      run := StopsAtSend(s);
    } else {
      var step := TowardsSend(s);
      KeepsInv(s, step);
      InternalShrinks(s, step);
      MaxStays(s, step);
      run := PendingCanStrand(Next(s, step));
      run := Before(s, step, run);
    }
  }

  lemma MaxStays(s: Jobs, step: Step)
    requires Enabled(s, step)
    ensures Next(s, step).max == s.max
  {}

  /**
   * Exactly when a caller may stop the manager without stranding a request or the dispatcher: before Stop, no run
   * without a new submission ends with a send to a worker that has left if and only if nothing is pending.
   */
  lemma StopIsSafeIff(s: Jobs)
    requires Inv(s) && s.max >= 1 && !s.quit
    ensures NeverStranded(s) <==> Quiet(s)
  {
    hide Inv;
    if Quiet(s) {
      forall run | Runs(s, run) && NoSubmit(run) ensures !Stranded(EndOf(s, run)) { QuietIsSafe(s, run); }
    } else {
      var run := PendingCanStrand(s);
    }
  }

  // ---------------------------------------------------------------- the queue's capacity

  /** SubmitJob turns a new request away, over every run, exactly when 4 * max requests wait in the work queue. */
  lemma RejectsExactlyWhenFull(max: nat, ids: set<WorkerId>, run: seq<Step>, r: Req)
    requires |ids| == max && Runs(Fresh(max, ids), run) && !Known(EndOf(Fresh(max, ids), run), r)
    ensures var s := EndOf(Fresh(max, ids), run);
      |s.queue| <= 4 * max && (!Enabled(s, Submit(r)) <==> |s.queue| == 4 * max)
  {
    FreshInv(max, ids);
    RunKeepsInv(Fresh(max, ids), run);
    MaxOverRun(Fresh(max, ids), run);
  }

  lemma {:induction false} MaxOverRun(s: Jobs, run: seq<Step>)
    requires Runs(s, run)
    ensures EndOf(s, run).max == s.max
    decreases |run|
  {
    if run != [] {
      MaxStays(s, run[0]);
      MaxOverRun(Next(s, run[0]), run[1..]);
    }
  }

  /** And that many do fit: any number of new requests up to 4 * max can be submitted and queued before one is taken. */
  lemma {:induction false} QueueFills(max: nat, ids: set<WorkerId>, n: nat) returns (run: seq<Step>)
    requires |ids| == max && n <= 4 * max
    ensures Runs(Fresh(max, ids), run)
    ensures var s := EndOf(Fresh(max, ids), run);
      && s.max == max && |s.queue| == n && s.submitting == {} && s.withdrawn == {} && s.queue == s.entered
      && forall r <- s.entered :: r < n
    decreases n
  {
    var s0 := Fresh(max, ids);
    if n == 0 {
      run := [];
      StartRun(s0);
    } else {
      var before := QueueFills(max, ids, n - 1);
      var s := EndOf(s0, before);
      hide Runs, EndOf;
      assert !Known(s, n - 1) && !Rejects(s);
      run, s := Then(s0, before, s, Submit(n - 1));
      run, s := Then(s0, run, s, Enqueue(n - 1));
    }
  }
}
