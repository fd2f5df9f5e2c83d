/**
 * The two-tier semaphore protocol of one handler's worker pool, as a transition system.
 *
 * Every step is one channel operation, one wait-group operation, one deferred call or one slice of
 * handler work; any number of dispatches interleave in any order.
 */
module PoolModel {
  import opened Sequences
  import opened Sums

  type EventId = nat
  type ChanId = nat

  /** How far one dispatch has come. A Call never visits the three Push-only phases. */
  datatype Phase =
    | WantPush             // Push: waiting to send on semPush
    | WantTotal            // waiting to send on semTotal
    | BackingOut           // Push: cancelled while waiting for semTotal, semPush token to be returned
    | Refused              // dispatch returned the context's error
    | Granted              // every token held, not yet counted in the wait group
    | Spawned              // counted, goroutine created, Handle not entered
    | Running(left: nat)   // inside Handle
    | Panicked             // Handle panicked, recoverPanic still to run
    | OwesBoth             // Push: handler over, both tokens to be returned
    | OwesTotal            // semTotal token to be returned
    | OwesCount            // wg.Done to be called
    | OwesClose            // done channel to be closed
    | Closed               // done channel closed

  /** One call of dispatch: its event, its reply channel, and how many slices of work its handler will take. */
  datatype Task = Task(isCall: bool, cancellable: bool, resp: ChanId, work: nat, phase: Phase)

  datatype Pool = Pool(
    max: nat,                     // capacity of semTotal
    pushCap: nat,                 // capacity of semPush
    semPush: nat,                 // tokens in semPush
    semTotal: nat,                // tokens in semTotal
    wg: int,                      // wait-group counter
    tasks: map<EventId, Task>,
    cancelled: set<EventId>,      // events whose caller's context is done
    starts: seq<EventId>,         // every entry into Handle, in order
    closes: seq<EventId>          // every close of a done channel, in order
  )

  datatype Step =
    | Dispatch(ev: EventId, isCall: bool, cancellable: bool, resp: ChanId, work: nat)
    | Cancel(ev: EventId)
    | AcquirePush(ev: EventId)
    | CancelAtPush(ev: EventId)
    | AcquireTotal(ev: EventId)
    | CancelAtTotal(ev: EventId)
    | BackOut(ev: EventId)
    | Spawn(ev: EventId)
    | Start(ev: EventId)
    | Work(ev: EventId)
    | Return(ev: EventId)
    | Panic(ev: EventId)
    | Recover(ev: EventId)
    | ReleasePush(ev: EventId)
    | ReleaseTotal(ev: EventId)
    | Uncount(ev: EventId)
    | CloseDone(ev: EventId)

  /** The capacity newWorkerPool gives semPush. */
  function PushSlots(max: nat, reserved: int): (slots: nat) {
    if max - reserved < 1 then 1 else max - reserved
  }

  function Init(max: nat, reserved: int): Pool {
    Pool(max, PushSlots(max, reserved), 0, 0, 0, map[], {}, [], [])
  }

  /** The phase dispatch starts in: only a Push asks semPush. */
  function FirstPhase(isCall: bool): Phase {
    if isCall then WantTotal else WantPush
  }

  /** The phase after the handler and recoverPanic are over: only a Push owes semPush a token. */
  function AfterHandler(isCall: bool): Phase {
    if isCall then OwesTotal else OwesBoth
  }

  predicate InPhase(p: Pool, ev: EventId, phase: Phase) {
    ev in p.tasks && p.tasks[ev].phase == phase
  }

  /** A select may take its ctx.Done case. */
  predicate ContextDone(p: Pool, ev: EventId) {
    ev in p.tasks && p.tasks[ev].cancellable && ev in p.cancelled
  }

  predicate Enabled(p: Pool, s: Step) {
    match s
    case Dispatch(ev, _, _, _, _) => ev !in p.tasks
    case Cancel(ev) => true
    case AcquirePush(ev) => InPhase(p, ev, WantPush) && p.semPush < p.pushCap
    case CancelAtPush(ev) => InPhase(p, ev, WantPush) && ContextDone(p, ev)
    case AcquireTotal(ev) => InPhase(p, ev, WantTotal) && p.semTotal < p.max
    case CancelAtTotal(ev) => InPhase(p, ev, WantTotal) && ContextDone(p, ev)
    case BackOut(ev) => InPhase(p, ev, BackingOut) && p.semPush > 0
    case Spawn(ev) => InPhase(p, ev, Granted)
    case Start(ev) => InPhase(p, ev, Spawned)
    case Work(ev) => ev in p.tasks && p.tasks[ev].phase.Running? && p.tasks[ev].phase.left > 0
    case Return(ev) => ev in p.tasks && p.tasks[ev].phase.Running?
    case Panic(ev) => ev in p.tasks && p.tasks[ev].phase.Running?
    case Recover(ev) => InPhase(p, ev, Panicked)
    case ReleasePush(ev) => InPhase(p, ev, OwesBoth) && p.semPush > 0
    case ReleaseTotal(ev) => InPhase(p, ev, OwesTotal) && p.semTotal > 0
    case Uncount(ev) => InPhase(p, ev, OwesCount)
    case CloseDone(ev) => InPhase(p, ev, OwesClose)
  }

  /** The phase step `s` moves its task to. */
  function NextPhase(t: Task, s: Step): Phase {
    match s
    case Dispatch(_, _, _, _, _) => t.phase
    case Cancel(_) => t.phase
    case AcquirePush(_) => WantTotal
    case CancelAtPush(_) => Refused
    case AcquireTotal(_) => Granted
    case CancelAtTotal(_) => if t.isCall then Refused else BackingOut
    case BackOut(_) => Refused
    case Spawn(_) => Spawned
    case Start(_) => Running(t.work)
    case Work(_) => if t.phase.Running? && t.phase.left > 0 then Running(t.phase.left - 1) else t.phase
    case Return(_) => AfterHandler(t.isCall)
    case Panic(_) => Panicked
    case Recover(_) => AfterHandler(t.isCall)
    case ReleasePush(_) => OwesTotal
    case ReleaseTotal(_) => OwesCount
    case Uncount(_) => OwesClose
    case CloseDone(_) => Closed
  }

  /** The task step `s` leaves behind. */
  function NextTask(p: Pool, s: Step): Task
    requires Enabled(p, s) && !s.Cancel?
  {
    if s.Dispatch? then Task(s.isCall, s.cancellable, s.resp, s.work, FirstPhase(s.isCall))
    else p.tasks[s.ev].(phase := NextPhase(p.tasks[s.ev], s))
  }

  /** What step `s` sends to or receives from semPush, semTotal and the wait group. */
  function PushDelta(s: Step): int {
    if s.AcquirePush? then 1 else if s.BackOut? || s.ReleasePush? then -1 else 0
  }

  function TotalDelta(s: Step): int {
    if s.AcquireTotal? then 1 else if s.ReleaseTotal? then -1 else 0
  }

  function CountDelta(s: Step): int {
    if s.Spawn? then 1 else if s.Uncount? then -1 else 0
  }

  function Apply(p: Pool, s: Step): Pool
    requires Enabled(p, s)
  {
    if s.Cancel? then p.(cancelled := p.cancelled + {s.ev}) else
      p.(semPush := p.semPush + PushDelta(s),
         semTotal := p.semTotal + TotalDelta(s),
         wg := p.wg + CountDelta(s),
         tasks := p.tasks[s.ev := NextTask(p, s)],
         starts := if s.Start? then p.starts + [s.ev] else p.starts,
         closes := if s.CloseDone? then p.closes + [s.ev] else p.closes)
  }

  /** `run` can be taken from `p`, step by step. */
  ghost predicate Legal(p: Pool, run: seq<Step>)
    decreases |run|
  {
    run == [] || (Enabled(p, run[0]) && Legal(Apply(p, run[0]), run[1..]))
  }

  ghost function Exec(p: Pool, run: seq<Step>): Pool
    requires Legal(p, run)
    decreases |run|
  {
    if run == [] then p else Exec(Apply(p, run[0]), run[1..])
  }

  lemma LegalNothing(p: Pool)
    ensures Legal(p, []) && Exec(p, []) == p
  {}

  lemma {:induction false} ExtendRun(p: Pool, run: seq<Step>, s: Step)
    requires Legal(p, run) && Enabled(Exec(p, run), s)
    ensures Legal(p, run + [s]) && Exec(p, run + [s]) == Apply(Exec(p, run), s)
    decreases |run|
  {
    if run != [] {
      ExtendRun(Apply(p, run[0]), run[1..], s);
      assert (run + [s])[1..] == run[1..] + [s];
    } else {
      assert [s][1..] == [];
      assert Legal(Apply(p, s), []);
    }
  }

  // ---------------------------------------------------------------- who holds what

  predicate HoldsPush(t: Task) {
    !t.isCall && (t.phase.WantTotal? || t.phase.BackingOut? || t.phase.Granted? || t.phase.Spawned?
                  || t.phase.Running? || t.phase.Panicked? || t.phase.OwesBoth?)
  }

  predicate HoldsTotal(t: Task) {
    t.phase.Granted? || t.phase.Spawned? || t.phase.Running? || t.phase.Panicked? || t.phase.OwesBoth?
      || t.phase.OwesTotal?
  }

  /** Counted in the wait group. */
  predicate Counted(t: Task) {
    t.phase.Spawned? || t.phase.Running? || t.phase.Panicked? || t.phase.OwesBoth? || t.phase.OwesTotal?
      || t.phase.OwesCount?
  }

  /** Inside Handle or its panic recovery. */
  predicate InHandler(t: Task) { t.phase.Running? || t.phase.Panicked? }

  predicate PushInHandler(t: Task) { !t.isCall && InHandler(t) }

  /** Handle has been entered. */
  predicate Started(t: Task) {
    InHandler(t) || t.phase.OwesBoth? || t.phase.OwesTotal? || t.phase.OwesCount? || t.phase.OwesClose?
      || t.phase.Closed?
  }

  predicate CallHoldsTotal(t: Task) { t.isCall && HoldsTotal(t) }

  predicate Finished(t: Task) { t.phase.Refused? || t.phase.Closed? }

  // ---------------------------------------------------------------- invariant

  /** Each semaphore holds one token per live holder, and the wait group counts the live workers. */
  ghost predicate TokensMatch(p: Pool) {
    && p.semPush == |Where(p.tasks, HoldsPush)| <= p.pushCap
    && p.semTotal == |Where(p.tasks, HoldsTotal)| <= p.max
    && p.wg == |Where(p.tasks, Counted)|
  }

  predicate GoodTask(t: Task) {
    && (t.isCall ==> !t.phase.WantPush? && !t.phase.BackingOut? && !t.phase.OwesBoth?)
    && (t.phase.Running? ==> t.phase.left <= t.work)
    && (t.phase.Refused? || t.phase.BackingOut? ==> t.cancellable)
  }

  ghost predicate GoodTasks(p: Pool) {
    forall ev <- p.tasks.Keys ::
      GoodTask(p.tasks[ev]) && (p.tasks[ev].phase.Refused? || p.tasks[ev].phase.BackingOut? ==> ev in p.cancelled)
  }

  predicate IsClosed(t: Task) { t.phase.Closed? }

  /** A log lists once each task that satisfies `p`; one more task comes to satisfy it, or none. */
  ghost predicate Lists(log: seq<EventId>, tasks: map<EventId, Task>, p: Task -> bool) {
    NoRepeats(log) && forall ev :: ev in log <==> ev in tasks && p(tasks[ev])
  }

  /** Handle was entered once per started task, and each done channel closed once, at the very end. */
  ghost predicate LogsMatch(p: Pool) { Lists(p.starts, p.tasks, Started) && Lists(p.closes, p.tasks, IsClosed) }

  ghost predicate Inv(p: Pool) { TokensMatch(p) && GoodTasks(p) && LogsMatch(p) }

  lemma InitInv(max: nat, reserved: int)
    ensures Inv(Init(max, reserved))
  {
    var p := Init(max, reserved);
    assert Where(p.tasks, HoldsPush) == {} && Where(p.tasks, HoldsTotal) == {} && Where(p.tasks, Counted) == {};
  }

  /** A step changes what its own task holds by what it sends and receives. */
  lemma TokenDeltas(p: Pool, s: Step)
    requires Enabled(p, s) && !s.Cancel? && (s.ev in p.tasks ==> GoodTask(p.tasks[s.ev]))
    ensures var t := NextTask(p, s);
      var known := s.ev in p.tasks;
      && (if HoldsPush(t) then 1 else 0) == (if known && HoldsPush(p.tasks[s.ev]) then 1 else 0) + PushDelta(s)
      && (if HoldsTotal(t) then 1 else 0) == (if known && HoldsTotal(p.tasks[s.ev]) then 1 else 0) + TotalDelta(s)
      && (if Counted(t) then 1 else 0) == (if known && Counted(p.tasks[s.ev]) then 1 else 0) + CountDelta(s)
    ensures s.AcquirePush? ==> p.semPush < p.pushCap
    ensures s.AcquireTotal? ==> p.semTotal < p.max
  {}

  lemma StepKeepsTokens(p: Pool, s: Step)
    requires Inv(p) && Enabled(p, s)
    ensures TokensMatch(Apply(p, s))
  {
    if !s.Cancel? {
      assert s.ev in p.tasks ==> GoodTask(p.tasks[s.ev]);
      TokenDeltas(p, s);
      hide Enabled, NextTask, LogsMatch, GoodTasks, HoldsPush, HoldsTotal, Counted;
      var t := NextTask(p, s);
      WhereUpdate(p.tasks, s.ev, t, HoldsPush);
      WhereUpdate(p.tasks, s.ev, t, HoldsTotal);
      WhereUpdate(p.tasks, s.ev, t, Counted);
    }
  }

  /** One step leaves its own task well-formed. */
  lemma NextTaskGood(p: Pool, s: Step)
    requires Enabled(p, s) && !s.Cancel? && (s.ev in p.tasks ==> GoodTask(p.tasks[s.ev]))
    requires s.BackOut? ==> s.ev in p.cancelled
    ensures GoodTask(NextTask(p, s))
    ensures NextTask(p, s).phase.Refused? || NextTask(p, s).phase.BackingOut? ==> s.ev in p.cancelled
  {}

  lemma StepKeepsTasks(p: Pool, s: Step)
    requires Inv(p) && Enabled(p, s)
    ensures GoodTasks(Apply(p, s))
  {
    if !s.Cancel? {
      NextTaskGood(p, s);
    }
  }

  /** Handle is entered by Start and never un-entered; likewise the done channel and CloseDone. */
  lemma StartedOnce(p: Pool, s: Step)
    requires Enabled(p, s) && !s.Cancel? && (s.ev in p.tasks ==> GoodTask(p.tasks[s.ev]))
    ensures s.Start? ==> !Started(p.tasks[s.ev])
    ensures Started(NextTask(p, s)) <==> s.Start? || (s.ev in p.tasks && Started(p.tasks[s.ev]))
    ensures s.CloseDone? ==> !p.tasks[s.ev].phase.Closed?
    ensures NextTask(p, s).phase.Closed? <==> s.CloseDone? || (s.ev in p.tasks && p.tasks[s.ev].phase.Closed?)
  {}

  lemma ListsStep(log: seq<EventId>, tasks: map<EventId, Task>, p: Task -> bool, ev: EventId, t: Task, enters: bool)
    requires Lists(log, tasks, p) && (enters ==> ev in tasks && !p(tasks[ev]))
    requires p(t) <==> enters || (ev in tasks && p(tasks[ev]))
    ensures Lists(if enters then log + [ev] else log, tasks[ev := t], p)
  {
    if enters { AppendFresh(log, ev); }
  }

  lemma StepKeepsLogs(p: Pool, s: Step)
    requires Inv(p) && Enabled(p, s)
    ensures LogsMatch(Apply(p, s))
  {
    if !s.Cancel? {
      assert s.ev in p.tasks ==> GoodTask(p.tasks[s.ev]);
      StartedOnce(p, s);
      assert s.Start? || s.CloseDone? ==> s.ev in p.tasks;
      hide TokensMatch, GoodTasks, GoodTask, Enabled, NextTask, Lists, Inv;
      ListsStep(p.starts, p.tasks, Started, s.ev, NextTask(p, s), s.Start?);
      ListsStep(p.closes, p.tasks, IsClosed, s.ev, NextTask(p, s), s.CloseDone?);
    }
  }

  lemma StepKeepsInv(p: Pool, s: Step)
    requires Inv(p) && Enabled(p, s)
    ensures Inv(Apply(p, s))
  {
    StepKeepsTokens(p, s);
    StepKeepsTasks(p, s);
    StepKeepsLogs(p, s);
  }

  lemma {:induction false} RunKeepsInv(p: Pool, run: seq<Step>)
    requires Inv(p) && Legal(p, run)
    ensures Inv(Exec(p, run))
    decreases |run|
  {
    if run != [] {
      StepKeepsInv(p, run[0]);
      RunKeepsInv(Apply(p, run[0]), run[1..]);
    }
  }

  /**
   * Token conservation over every run from an empty pool: occupancy equals live holders, within capacity; no
   * event enters Handle twice; a done channel closes at most once and only when its task holds nothing.
   */
  lemma TokensConserved(max: nat, reserved: int, run: seq<Step>)
    requires Legal(Init(max, reserved), run)
    ensures var p := Exec(Init(max, reserved), run);
      && p.semPush == |Where(p.tasks, HoldsPush)| <= PushSlots(max, reserved)
      && p.semTotal == |Where(p.tasks, HoldsTotal)| <= max
      && p.wg == |Where(p.tasks, Counted)|
      && NoRepeats(p.starts) && NoRepeats(p.closes)
      && forall ev <- p.closes ::
        ev in p.tasks && !HoldsPush(p.tasks[ev]) && !HoldsTotal(p.tasks[ev]) && !Counted(p.tasks[ev])
  {
    InitInv(max, reserved);
    RunKeepsInv(Init(max, reserved), run);
    CapacityFixed(Init(max, reserved), run);
    var p := Exec(Init(max, reserved), run);
    forall ev <- p.closes
      ensures ev in p.tasks && !HoldsPush(p.tasks[ev]) && !HoldsTotal(p.tasks[ev]) && !Counted(p.tasks[ev])
    {
    }
  }

  lemma {:induction false} CapacityFixed(p: Pool, run: seq<Step>)
    requires Legal(p, run)
    ensures Exec(p, run).max == p.max && Exec(p, run).pushCap == p.pushCap
    decreases |run|
  {
    if run != [] { CapacityFixed(Apply(p, run[0]), run[1..]); }
  }

  // ---------------------------------------------------------------- reserved capacity

  /** At most pushCap Push handlers and at most max handlers run at once. */
  lemma HandlersBounded(p: Pool)
    requires Inv(p)
    ensures |Where(p.tasks, PushInHandler)| <= p.pushCap
    ensures |Where(p.tasks, InHandler)| <= p.max
  {
    SubsetSize(Where(p.tasks, PushInHandler), Where(p.tasks, HoldsPush));
    SubsetSize(Where(p.tasks, InHandler), Where(p.tasks, HoldsTotal));
  }

  /**
   * A full semTotal that fewer than `reserved` Calls occupy hides a Push worker that has left its handler, has
   * given semPush back, and can return its semTotal token without blocking.
   */
  lemma ReservedSlotIsComingBack(p: Pool, reserved: nat) returns (ev: EventId)
    requires Inv(p) && reserved < p.max && p.pushCap == PushSlots(p.max, reserved)
    requires p.semTotal == p.max && |Where(p.tasks, CallHoldsTotal)| < reserved
    ensures ev in p.tasks && !p.tasks[ev].isCall && p.tasks[ev].phase.OwesTotal?
    ensures Enabled(p, ReleaseTotal(ev))
  {
    var total := Where(p.tasks, HoldsTotal);
    var calls := Where(p.tasks, CallHoldsTotal);
    var push := Where(p.tasks, HoldsPush);
    if total <= calls + push {
      SubsetSize(total, calls + push);
      assert false;
    }
    ev :| ev in total && ev !in calls && ev !in push;
  }

  /** The Push bound that the reservation promises, in every state some run reaches. */
  ghost predicate PushNeverInReserve(max: nat, reserved: int) {
    forall run :: Legal(Init(max, reserved), run) ==>
      |Where(Exec(Init(max, reserved), run).tasks, PushInHandler)| <= max - reserved
  }

  /** Push handlers stay within max - reserved exactly when fewer than all workers are reserved. */
  lemma ReservationHoldsIff(max: nat, reserved: int)
    requires max >= 1
    ensures PushNeverInReserve(max, reserved) <==> reserved < max
  {
    if reserved < max {
      forall run | Legal(Init(max, reserved), run)
        ensures |Where(Exec(Init(max, reserved), run).tasks, PushInHandler)| <= max - reserved
      {
        InitInv(max, reserved);
        RunKeepsInv(Init(max, reserved), run);
        CapacityFixed(Init(max, reserved), run);
        HandlersBounded(Exec(Init(max, reserved), run));
      }
    } else {
      var run := OnePushRuns(max, reserved);
      assert |Where(Exec(Init(max, reserved), run).tasks, PushInHandler)| > max - reserved;
    }
  }

  /** A pool whose only task is a Push, event 0, in the given phase. */
  function OnePush(max: nat, reserved: int, tokens: (nat, nat), wg: int, phase: Phase, starts: seq<EventId>): Pool {
    Pool(max, PushSlots(max, reserved), tokens.0, tokens.1, wg, map[0 := Task(false, false, 0, 0, phase)], {}, starts,
      [])
  }

  lemma OnePushSteps(max: nat, reserved: int)
    requires max >= 1
    ensures Moves(Init(max, reserved), Dispatch(0, false, false, 0, 0), OnePush(max, reserved, (0, 0), 0, WantPush, []))
    ensures Moves(OnePush(max, reserved, (0, 0), 0, WantPush, []), AcquirePush(0),
      OnePush(max, reserved, (1, 0), 0, WantTotal, []))
    ensures Moves(OnePush(max, reserved, (1, 0), 0, WantTotal, []), AcquireTotal(0),
      OnePush(max, reserved, (1, 1), 0, Granted, []))
  {}

  lemma OnePushEnters(max: nat, reserved: int)
    ensures Moves(OnePush(max, reserved, (1, 1), 0, Granted, []), Spawn(0),
      OnePush(max, reserved, (1, 1), 1, Spawned, []))
    ensures Moves(OnePush(max, reserved, (1, 1), 1, Spawned, []), Start(0),
      OnePush(max, reserved, (1, 1), 1, Running(0), [0]))
  {}

  ghost predicate Moves(p: Pool, s: Step, q: Pool) { Enabled(p, s) && Apply(p, s) == q }

  /** With one worker or more, a single Push gets into its handler, whatever is reserved. */
  lemma OnePushRuns(max: nat, reserved: int) returns (run: seq<Step>)
    requires max >= 1
    ensures Legal(Init(max, reserved), run)
    ensures |Where(Exec(Init(max, reserved), run).tasks, PushInHandler)| == 1
  {
    var last := OnePush(max, reserved, (1, 1), 1, Running(0), [0]);
    assert Legal(last, []) && Exec(last, []) == last;
    assert Where(last.tasks, PushInHandler) == {0};
    OnePushSteps(max, reserved);
    OnePushEnters(max, reserved);
    hide Legal, Exec, Apply, Enabled, OnePush;
    run := Before(OnePush(max, reserved, (1, 1), 1, Spawned, []), Start(0), last, []);
    run := Before(OnePush(max, reserved, (1, 1), 0, Granted, []), Spawn(0),
      OnePush(max, reserved, (1, 1), 1, Spawned, []), run);
    run := Before(OnePush(max, reserved, (1, 0), 0, WantTotal, []), AcquireTotal(0),
      OnePush(max, reserved, (1, 1), 0, Granted, []), run);
    run := Before(OnePush(max, reserved, (0, 0), 0, WantPush, []), AcquirePush(0),
      OnePush(max, reserved, (1, 0), 0, WantTotal, []), run);
    run := Before(Init(max, reserved), Dispatch(0, false, false, 0, 0), OnePush(max, reserved, (0, 0), 0, WantPush, []),
      run);
  }

  /** Puts one step in front of a run. */
  lemma Before(p: Pool, s: Step, q: Pool, run: seq<Step>) returns (longer: seq<Step>)
    requires Enabled(p, s) && Apply(p, s) == q && Legal(q, run)
    ensures Legal(p, longer) && Exec(p, longer) == Exec(q, run)
  {
    longer := [s] + run;
    assert longer[1..] == run;
  }

  // ---------------------------------------------------------------- deadlock freedom

  /** How many steps a task can still take. */
  function Remaining(t: Task): nat {
    match t.phase
    case WantPush => t.work + 11
    case WantTotal => t.work + 10
    case BackingOut => 1
    case Refused => 0
    case Granted => t.work + 9
    case Spawned => t.work + 8
    case Running(left) => left + 7
    case Panicked => 6
    case OwesBoth => 5
    case OwesTotal => 4
    case OwesCount => 3
    case OwesClose => 2
    case Closed => 0
  }

  ghost function Rank(p: Pool): nat { Total(p.tasks, Remaining) }

  /** A step the pool itself takes: neither a new event nor a caller's cancellation. */
  predicate Internal(s: Step) { !s.Dispatch? && !s.Cancel? }

  lemma NextTaskSmaller(p: Pool, s: Step)
    requires Enabled(p, s) && Internal(s) && GoodTask(p.tasks[s.ev])
    ensures Remaining(NextTask(p, s)) < Remaining(p.tasks[s.ev])
  {}

  /** No internal step can be repeated for ever. */
  lemma StepShrinks(p: Pool, s: Step)
    requires Inv(p) && Enabled(p, s) && Internal(s)
    ensures Rank(Apply(p, s)) < Rank(p)
  {
    assert GoodTask(p.tasks[s.ev]);
    NextTaskSmaller(p, s);
    TotalUpdate(p.tasks, s.ev, NextTask(p, s), Remaining);
  }

  /** The step, if any, that an unfinished task can take by itself: everything but asking for a token. */
  function OwnStep(p: Pool, ev: EventId): Step
    requires ev in p.tasks
  {
    match p.tasks[ev].phase
    case BackingOut => BackOut(ev)
    case Granted => Spawn(ev)
    case Spawned => Start(ev)
    case Running(_) => Return(ev)
    case Panicked => Recover(ev)
    case OwesBoth => ReleasePush(ev)
    case OwesTotal => ReleaseTotal(ev)
    case OwesCount => Uncount(ev)
    case OwesClose => CloseDone(ev)
    case WantPush => AcquirePush(ev)
    case _ => AcquireTotal(ev)
  }

  lemma HolderKeepsTokenThere(p: Pool, ev: EventId)
    requires Inv(p) && ev in p.tasks
    ensures HoldsPush(p.tasks[ev]) ==> p.semPush > 0
    ensures HoldsTotal(p.tasks[ev]) ==> p.semTotal > 0
  {
    if HoldsPush(p.tasks[ev]) { SubsetSize({ev}, Where(p.tasks, HoldsPush)); }
    if HoldsTotal(p.tasks[ev]) { SubsetSize({ev}, Where(p.tasks, HoldsTotal)); }
  }

  /**
   * Deadlock freedom: with at least one worker, as long as any dispatch is unfinished some step is enabled that
   * needs neither a new event nor a cancelled context.
   */
  lemma NeverStuck(p: Pool, waiting: EventId) returns (s: Step)
    requires Inv(p) && p.max >= 1 && p.pushCap >= 1
    requires waiting in p.tasks && !Finished(p.tasks[waiting])
    ensures Enabled(p, s) && Internal(s) && !s.CancelAtPush? && !s.CancelAtTotal?
  {
    if ev :| ev in p.tasks && !Finished(p.tasks[ev]) && !p.tasks[ev].phase.WantPush? && !p.tasks[ev].phase.WantTotal? {
      HolderKeepsTokenThere(p, ev);
      assert GoodTask(p.tasks[ev]);
      s := OwnStep(p, ev);
    } else if ev :| ev in p.tasks && p.tasks[ev].phase.WantTotal? {
      assert Where(p.tasks, HoldsTotal) == {};
      s := AcquireTotal(ev);
    } else {
      assert Where(p.tasks, HoldsPush) == {};
      s := AcquirePush(waiting);
    }
  }

  /** A run of internal steps only. */
  ghost predicate InternalRun(run: seq<Step>) { forall i :: 0 <= i < |run| ==> Internal(run[i]) }

  /**
   * Left alone, a pool drains: every internal run is at most Rank(p) steps long, and one that cannot be extended
   * has finished every dispatch, emptied both semaphores and brought the wait group to zero.
   */
  lemma {:induction false} PoolDrains(p: Pool, run: seq<Step>)
    requires Inv(p) && p.max >= 1 && p.pushCap >= 1 && Legal(p, run) && InternalRun(run)
    ensures |run| <= Rank(p)
    ensures (forall s :: Enabled(Exec(p, run), s) ==> !Internal(s)) ==>
      var q := Exec(p, run);
      (forall ev <- q.tasks.Keys :: Finished(q.tasks[ev])) && q.semPush == 0 && q.semTotal == 0 && q.wg == 0
    decreases |run|
  {
    if run == [] {
      if forall s :: Enabled(p, s) ==> !Internal(s) {
        forall ev <- p.tasks.Keys ensures Finished(p.tasks[ev]) {
          if !Finished(p.tasks[ev]) { var s := NeverStuck(p, ev); assert false; }
        }
        assert Where(p.tasks, HoldsPush) == {} && Where(p.tasks, HoldsTotal) == {} && Where(p.tasks, Counted) == {};
      }
    } else {
      assert Internal(run[0]);
      StepKeepsInv(p, run[0]);
      StepShrinks(p, run[0]);
      assert InternalRun(run[1..]);
      PoolDrains(Apply(p, run[0]), run[1..]);
    }
  }
}
