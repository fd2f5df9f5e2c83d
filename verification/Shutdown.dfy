/**
 * Stopping the bus: the lifecycle flag, the queue registry, and the thread that runs Stop, beside any number of
 * cells whose goroutines keep running all the while.
 */
module Shutdown {
  import opened Options
  import opened PoolModel
  import opened QueueModel
  import opened CellModel
  import opened CellTheorems

  type PoolId = nat

  /** A queue object: the pool it is bound to and its place there. */
  datatype QRef = QRef(pool: PoolId, q: QueueId)

  /** A worker goroutine. */
  datatype Worker = Worker(pool: PoolId, ev: EventId)

  /** How far Stop has come: its snapshot, the three loops, and the calls of the handlers' Shutdown. */
  datatype Stage = Idle | Snapshot | Aborting | Joining | Waiting | CallingShutdown

  datatype Bus = Bus(
    started: bool,
    cells: map<PoolId, Cell>,
    live: map<string, QRef>,        // queueManager.queues
    gone: set<string>,              // queueManager.released
    stage: Stage,
    next: nat,                      // index of Stop's current loop
    pools: seq<PoolId>,             // the pools Stop snapshotted
    taken: seq<QRef>,               // the queues abortAll took, in its order
    counted: set<Worker>            // workers counted in the snapshotted pools when Stop took its snapshot
  )

  datatype BusStep =
    | InCell(pool: PoolId, s: CellStep)
    | AddPool(pool: PoolId, max: nat, reserved: int)
    | StartService
    | CreateQueue(name: string, ref: QRef, cap: nat)
    | Unlink(name: string)                     // the registry's part of release and abortOne
    | StopBegins(order: seq<PoolId>)
    | TakeQueues(refs: seq<QRef>)              // abortAll's critical section, in some map order
    | AbortNext
    | JoinNext
    | WaitNext
    | LoopEnds
    | StopEnds

  predicate Known(b: Bus, ref: QRef) { ref.pool in b.cells && ref.q in b.cells[ref.pool].queues }

  function QueueAt(b: Bus, ref: QRef): Queue
    requires Known(b, ref)
  {
    b.cells[ref.pool].queues[ref.q]
  }

  ghost function CountedWorkers(b: Bus, pools: seq<PoolId>): set<Worker> {
    set p, ev | p in b.cells && p in pools && ev in b.cells[p].pool.tasks && Counted(b.cells[p].pool.tasks[ev]) ::
      Worker(p, ev)
  }

  ghost predicate Can(b: Bus, s: BusStep) {
    match s
    case InCell(p, cs) => p in b.cells && !cs.Create? && CanStep(b.cells[p], cs)
    case AddPool(p, _, _) => p !in b.cells
    case StartService => !b.started && b.stage.Idle?
    case CreateQueue(name, ref, _) => name !in b.live && ref.pool in b.cells && ref.q !in b.cells[ref.pool].queues
    case Unlink(name) => name in b.live
    case StopBegins(order) => b.started && b.stage.Idle? && forall p <- order :: p in b.cells
    case TakeQueues(refs) =>
      b.stage.Snapshot? && |refs| == |b.live| && forall ref :: ref in refs <==> ref in b.live.Values
    case AbortNext => b.stage.Aborting? && b.next < |b.taken| && Known(b, b.taken[b.next])
    case JoinNext =>
      b.stage.Joining? && b.next < |b.taken| && Known(b, b.taken[b.next])
        && QueueAt(b, b.taken[b.next]).consumer.Exited?
    case WaitNext =>
      b.stage.Waiting? && b.next < |b.pools| && b.pools[b.next] in b.cells && b.cells[b.pools[b.next]].pool.wg == 0
    case LoopEnds =>
      if b.stage.Aborting? || b.stage.Joining? then b.next >= |b.taken| else b.stage.Waiting? && b.next >= |b.pools|
    case StopEnds => b.stage.CallingShutdown?
  }

  function StageAfterLoop(stage: Stage): Stage {
    match stage
    case Aborting => Joining
    case Joining => Waiting
    case _ => CallingShutdown
  }

  /** The cell step inside a step of the bus. */
  function CellPart(b: Bus, s: BusStep): (part: Option<(PoolId, CellStep)>) {
    match s
    case InCell(p, cs) => Some((p, cs))
    case CreateQueue(_, ref, cap) => Some((ref.pool, Create(ref.q, cap)))
    case AbortNext => if b.next < |b.taken| then Some((b.taken[b.next].pool, AbortQueue(b.taken[b.next].q))) else None
    case _ => None
  }

  ghost function NextCells(b: Bus, s: BusStep): map<PoolId, Cell>
    requires Can(b, s)
  {
    if s.AddPool? then b.cells[s.pool := NewCell(s.max, s.reserved)]
    else
      var part := CellPart(b, s);
      if part.None? then b.cells else b.cells[part.value.0 := After(b.cells[part.value.0], part.value.1)]
  }

  ghost function Next(b: Bus, s: BusStep): Bus
    requires Can(b, s)
  {
    var c := b.(cells := NextCells(b, s));
    match s
    case StartService => c.(started := true)
    case CreateQueue(name, ref, _) => c.(live := b.live[name := ref])
    case Unlink(name) => c.(live := b.live - {name}, gone := b.gone + {name})
    case StopBegins(order) =>
      c.(started := false, stage := Snapshot, pools := order, counted := CountedWorkers(b, order))
    case TakeQueues(refs) =>
      c.(live := map[], gone := b.gone + b.live.Keys, stage := Aborting, next := 0, taken := refs)
    case AbortNext => c.(next := b.next + 1)
    case JoinNext => c.(next := b.next + 1)
    case WaitNext => c.(next := b.next + 1)
    case LoopEnds => c.(stage := StageAfterLoop(b.stage), next := 0)
    case StopEnds => c.(stage := Idle)
    case _ => c
  }

  ghost predicate Runs(b: Bus, run: seq<BusStep>)
    decreases |run|
  {
    run == [] || (Can(b, run[0]) && Runs(Next(b, run[0]), run[1..]))
  }

  ghost function EndOf(b: Bus, run: seq<BusStep>): Bus
    requires Runs(b, run)
    decreases |run|
  {
    if run == [] then b else EndOf(Next(b, run[0]), run[1..])
  }

  const EMPTY_BUS := Bus(false, map[], map[], {}, Idle, 0, [], [], {})

  // ---------------------------------------------------------------- invariant

  ghost predicate CellsGood(b: Bus) { forall p <- b.cells.Keys :: CellTheorems.Inv(b.cells[p]) }

  ghost predicate RefsKnown(b: Bus) {
    && (forall name <- b.live.Keys :: Known(b, b.live[name]))
    && (b.stage.Aborting? || b.stage.Joining? || b.stage.Waiting? || b.stage.CallingShutdown? ==>
      forall ref <- b.taken :: Known(b, ref))
    && (!b.stage.Idle? ==> forall p <- b.pools :: p in b.cells)
  }

  /** An aborted queue whose consumer has left for good. */
  predicate Dead(q: Queue) { q.aborted && q.consumer.Exited? }

  /** How many of the taken queues Stop has aborted, and how many it has joined. */
  function AbortedUpTo(b: Bus): nat {
    match b.stage
    case Aborting => if b.next <= |b.taken| then b.next else |b.taken|
    case Joining => |b.taken|
    case Waiting => |b.taken|
    case CallingShutdown => |b.taken|
    case _ => 0
  }

  function JoinedUpTo(b: Bus): nat {
    match b.stage
    case Joining => if b.next <= |b.taken| then b.next else |b.taken|
    case Waiting => |b.taken|
    case CallingShutdown => |b.taken|
    case _ => 0
  }

  function WaitedUpTo(b: Bus): nat {
    match b.stage
    case Waiting => if b.next <= |b.pools| then b.next else |b.pools|
    case CallingShutdown => |b.pools|
    case _ => 0
  }

  ghost predicate TakenProgress(b: Bus) {
    && (forall i :: 0 <= i < AbortedUpTo(b) ==> Known(b, b.taken[i]) && QueueAt(b, b.taken[i]).aborted)
    && (forall i :: 0 <= i < JoinedUpTo(b) ==> Known(b, b.taken[i]) && Dead(QueueAt(b, b.taken[i])))
  }

  /** A worker that was counted is still counted, or has gone through wg.Done. */
  ghost predicate WasCounted(b: Bus, w: Worker) {
    && w.pool in b.cells && w.ev in b.cells[w.pool].pool.tasks
    && (Counted(b.cells[w.pool].pool.tasks[w.ev]) || Uncounted(b.cells[w.pool].pool.tasks[w.ev]))
  }

  predicate Uncounted(t: Task) { t.phase.OwesClose? || t.phase.Closed? }

  ghost predicate WorkersProgress(b: Bus) {
    && (forall w <- b.counted :: WasCounted(b, w))
    && (!b.stage.Idle? ==> forall w <- b.counted :: w.pool in b.pools)
    && (forall w <- b.counted, i | 0 <= i < WaitedUpTo(b) ::
      w.pool == b.pools[i] ==> Uncounted(b.cells[w.pool].pool.tasks[w.ev]))
  }
}
