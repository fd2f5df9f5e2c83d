/** What Stop can rely on when it starts to call the handlers' Shutdown. */
module ShutdownSafety {
  import opened Sums
  import opened Options
  import opened PoolModel
  import opened QueueModel
  import opened CellModel
  import opened CellSafety
  import opened CellOrder
  import opened CellTheorems
  import opened Shutdown
  import CellDrain

  // ---------------------------------------------------------------- what a cell step cannot undo

  lemma QueueStaysDown(c: Cell, s: CellStep, id: QueueId)
    requires CanStep(c, s) && id in c.queues
    ensures id in NextQueues(c, s)
    ensures c.queues[id].aborted ==> NextQueues(c, s)[id].aborted
    ensures c.queues[id].consumer.Exited? ==> NextQueues(c, s)[id].consumer.Exited?
    ensures s == AbortQueue(id) ==> NextQueues(c, s)[id].aborted
  {}

  lemma WorkerStaysCounted(c: Cell, s: CellStep, ev: EventId)
    requires CanStep(c, s) && ev in c.pool.tasks
    ensures ev in NextPool(c, s).tasks
    ensures Uncounted(c.pool.tasks[ev]) ==> Uncounted(NextPool(c, s).tasks[ev])
    ensures Counted(c.pool.tasks[ev]) ==> Counted(NextPool(c, s).tasks[ev]) || Uncounted(NextPool(c, s).tasks[ev])
  {}

  /** A queue whose consumer has exited never gets another event into Handle. */
  lemma DeadQueueFrozen(c: Cell, s: CellStep, id: QueueId)
    requires CellTheorems.Inv(c) && CanStep(c, s) && id in c.queues && c.queues[id].consumer.Exited?
    ensures id in NextQueues(c, s) && NextQueues(c, s)[id].consumer.Exited?
    ensures StartsOf(NextPool(c, s), NextQueues(c, s)[id]) == StartsOf(c.pool, c.queues[id])
  {
    QueueStaysDown(c, s, id);
    StartsOfAfter(c, s, id);
    if Enters(c, s, id) { StartIsCurrent(c, s.s.ev, id); }
  }

  // ---------------------------------------------------------------- bus invariant

  ghost predicate Inv(b: Bus) { CellsGood(b) && RefsKnown(b) && TakenProgress(b) && WorkersProgress(b) }

  lemma InitInv()
    ensures Inv(EMPTY_BUS)
  {}

  /** The cell part of an enabled bus step is an enabled cell step. */
  lemma PartEnabled(b: Bus, s: BusStep)
    requires Can(b, s) && CellPart(b, s).Some?
    ensures var (p, cs) := CellPart(b, s).value; p in b.cells && CanStep(b.cells[p], cs)
  {}

  /** A cell after a bus step: as it was, or one cell step further. */
  lemma CellAfter(b: Bus, s: BusStep, p: PoolId)
    requires Can(b, s) && p in b.cells
    ensures p in NextCells(b, s)
    ensures || NextCells(b, s)[p] == b.cells[p]
            || (CellPart(b, s).Some? && CellPart(b, s).value.0 == p
              && NextCells(b, s)[p] == After(b.cells[p], CellPart(b, s).value.1))
  {}

  lemma KeepsCells(b: Bus, s: BusStep)
    requires Inv(b) && Can(b, s)
    ensures CellsGood(Next(b, s))
  {
    hide CellTheorems.Inv, CanStep, After;
    forall p <- NextCells(b, s).Keys ensures CellTheorems.Inv(NextCells(b, s)[p]) {
      if p in b.cells {
        CellAfter(b, s, p);
        if CellPart(b, s).Some? && CellPart(b, s).value.0 == p {
          PartEnabled(b, s);
          CellTheorems.StepInv(b.cells[p], CellPart(b, s).value.1);
        }
      } else {
        CellTheorems.InitInv(s.max, s.reserved);
      }
    }
  }

  /** Queues stay where they are, aborted queues stay aborted and exited consumers stay away. */
  lemma RefAfter(b: Bus, s: BusStep, ref: QRef)
    requires Can(b, s) && Known(b, ref)
    ensures Known(Next(b, s), ref)
    ensures QueueAt(b, ref).aborted ==> QueueAt(Next(b, s), ref).aborted
    ensures QueueAt(b, ref).consumer.Exited? ==> QueueAt(Next(b, s), ref).consumer.Exited?
    ensures s == AbortNext && ref == b.taken[b.next] ==> QueueAt(Next(b, s), ref).aborted
  {
    CellAfter(b, s, ref.pool);
    if CellPart(b, s).Some? && CellPart(b, s).value.0 == ref.pool {
      PartEnabled(b, s);
      QueueStaysDown(b.cells[ref.pool], CellPart(b, s).value.1, ref.q);
    }
  }

  /** Nothing that is known is ever forgotten. */
  lemma KnownStays(b: Bus, s: BusStep)
    requires Can(b, s)
    ensures forall ref :: Known(b, ref) ==> Known(Next(b, s), ref)
    ensures forall p <- b.cells.Keys :: p in Next(b, s).cells
  {
    hide CanStep, Can, Next, NextCells;
    NextKeepsCells(b, s);
    forall ref | Known(b, ref) ensures Known(Next(b, s), ref) { RefAfter(b, s, ref); }
    forall p <- b.cells.Keys ensures p in NextCells(b, s) { CellAfter(b, s, p); }
  }

  lemma KeepsLive(b: Bus, s: BusStep)
    requires RefsKnown(b) && Can(b, s)
    ensures forall name <- Next(b, s).live.Keys :: Known(Next(b, s), Next(b, s).live[name])
  {
    KnownStays(b, s);
    if s.CreateQueue? { CreatedKnown(b, s); }
    hide NextCells, CanStep, Known;
  }

  lemma KeepsTakenKnown(b: Bus, s: BusStep)
    requires RefsKnown(b) && Can(b, s)
    ensures var d := Next(b, s);
      d.stage.Aborting? || d.stage.Joining? || d.stage.Waiting? || d.stage.CallingShutdown? ==>
        forall ref <- d.taken :: Known(d, ref)
  {
    KnownStays(b, s);
    if s.TakeQueues? {
      forall ref <- s.refs ensures Known(b, ref) { assert ref in b.live.Values; }
    }
    hide NextCells, CanStep, Known;
  }

  lemma KeepsPools(b: Bus, s: BusStep)
    requires RefsKnown(b) && Can(b, s)
    ensures !Next(b, s).stage.Idle? ==> forall p <- Next(b, s).pools :: p in Next(b, s).cells
  {
    KnownStays(b, s);
    hide NextCells, CanStep, Known;
  }

  lemma KeepsRefs(b: Bus, s: BusStep)
    requires Inv(b) && Can(b, s)
    ensures RefsKnown(Next(b, s))
  {
    hide Can, Next, Known;
    KeepsLive(b, s);
    KeepsTakenKnown(b, s);
    KeepsPools(b, s);
  }

  lemma NextKeepsCells(b: Bus, s: BusStep)
    requires Can(b, s)
    ensures Next(b, s).cells == NextCells(b, s)
  {
    hide NextCells;
  }

  lemma CreatedKnown(b: Bus, s: BusStep)
    requires Can(b, s) && s.CreateQueue?
    ensures Known(Next(b, s), s.ref)
  {}

  lemma KeepsTaken(b: Bus, s: BusStep)
    requires Inv(b) && Can(b, s)
    ensures TakenProgress(Next(b, s))
  {
    assert RefsKnown(b) && TakenProgress(b);
    hide Inv, RefsKnown, Can, Next, AbortedUpTo, JoinedUpTo, Known, QueueAt, Dead;
    TakenAfter(b, s, Next(b, s));
  }

  lemma TakenAfter(b: Bus, s: BusStep, d: Bus)
    requires RefsKnown(b) && TakenProgress(b) && Can(b, s) && d == Next(b, s)
    ensures TakenProgress(d)
  {
    assert AbortedUpTo(d) <= |d.taken| && JoinedUpTo(d) <= |d.taken|;
    hide RefsKnown, Can, Next, AbortedUpTo, JoinedUpTo, Known, QueueAt, Dead;
    forall i | 0 <= i < AbortedUpTo(d) ensures Known(d, d.taken[i]) && QueueAt(d, d.taken[i]).aborted {
      AbortProgress(b, s, i);
    }
    forall i | 0 <= i < JoinedUpTo(d) ensures Known(d, d.taken[i]) && Dead(QueueAt(d, d.taken[i])) {
      JoinProgress(b, s, i);
    }
  }

  lemma AbortProgress(b: Bus, s: BusStep, i: nat)
    requires RefsKnown(b) && TakenProgress(b) && Can(b, s) && i < AbortedUpTo(Next(b, s))
    ensures Known(Next(b, s), Next(b, s).taken[i]) && QueueAt(Next(b, s), Next(b, s).taken[i]).aborted
  {
    assert Next(b, s).taken == b.taken;
    assert i < AbortedUpTo(b) || (s == AbortNext && i == b.next);
    RefAfter(b, s, b.taken[i]);
  }

  lemma JoinProgress(b: Bus, s: BusStep, i: nat)
    requires RefsKnown(b) && TakenProgress(b) && Can(b, s) && i < JoinedUpTo(Next(b, s))
    ensures Known(Next(b, s), Next(b, s).taken[i]) && Dead(QueueAt(Next(b, s), Next(b, s).taken[i]))
  {
    assert Next(b, s).taken == b.taken;
    assert i < AbortedUpTo(b);
    assert i < JoinedUpTo(b) || (s == JoinNext && i == b.next);
    RefAfter(b, s, b.taken[i]);
  }

  lemma WorkerAfter(b: Bus, s: BusStep, w: Worker)
    requires Can(b, s) && WasCounted(b, w)
    ensures WasCounted(Next(b, s), w)
    ensures Uncounted(b.cells[w.pool].pool.tasks[w.ev]) ==> Uncounted(NextCells(b, s)[w.pool].pool.tasks[w.ev])
  {
    CellAfter(b, s, w.pool);
    if CellPart(b, s).Some? && CellPart(b, s).value.0 == w.pool {
      PartEnabled(b, s);
      WorkerStaysCounted(b.cells[w.pool], CellPart(b, s).value.1, w.ev);
    }
  }

  /** A wait group at zero has no counted worker. */
  lemma ZeroMeansNone(c: Cell, ev: EventId)
    requires CellTheorems.Inv(c) && c.pool.wg == 0 && ev in c.pool.tasks
    ensures !Counted(c.pool.tasks[ev])
  {
    assert Counted(c.pool.tasks[ev]) ==> ev in Where(c.pool.tasks, Counted);
  }

  lemma KeepsWorkers(b: Bus, s: BusStep)
    requires Inv(b) && Can(b, s)
    ensures WorkersProgress(Next(b, s))
  {
    if s.StopBegins? { SnapshotWorkers(b, s); } else { AdvanceWorkers(b, s); }
  }

  lemma SnapshotWorkers(b: Bus, s: BusStep)
    requires Can(b, s) && s.StopBegins?
    ensures WorkersProgress(Next(b, s))
  {
    assert Next(b, s).cells == b.cells;
  }

  lemma AdvanceWorkers(b: Bus, s: BusStep)
    requires CellsGood(b) && WorkersProgress(b) && Can(b, s) && !s.StopBegins?
    ensures WorkersProgress(Next(b, s))
  {
    var d := Next(b, s);
    CountedFixed(b, s);
    WaitLoop(b, s);
    hide CellsGood, Can, Next, NextCells, Uncounted, WasCounted, WaitedUpTo;
    forall w <- d.counted ensures WasCounted(d, w) { WorkerAfter(b, s, w); }
    forall w <- d.counted, i | 0 <= i < WaitedUpTo(d) && w.pool == d.pools[i]
      ensures WasCounted(d, w) && Uncounted(d.cells[w.pool].pool.tasks[w.ev])
    {
      WaitProgress(b, s, w, i);
    }
  }

  /** Only StopBegins writes Stop's snapshot, and only the wait loop moves it on. */
  lemma CountedFixed(b: Bus, s: BusStep)
    requires Can(b, s) && !s.StopBegins?
    ensures Next(b, s).counted == b.counted && Next(b, s).pools == b.pools && Next(b, s).cells == NextCells(b, s)
    ensures b.stage.Idle? ==> Next(b, s).stage.Idle?
  {}

  lemma WaitLoop(b: Bus, s: BusStep)
    requires Can(b, s)
    ensures WaitedUpTo(Next(b, s)) <= if s == WaitNext then b.next + 1 else WaitedUpTo(b)
    ensures s == WaitNext ==>
      WaitedUpTo(b) == b.next < |b.pools| && b.pools[b.next] in b.cells && b.cells[b.pools[b.next]].pool.wg == 0
    ensures b.stage.Idle? ==> WaitedUpTo(Next(b, s)) == 0
  {}

  lemma WaitProgress(b: Bus, s: BusStep, w: Worker, i: nat)
    requires CellsGood(b) && WorkersProgress(b) && Can(b, s) && !s.StopBegins? && w in b.counted
    requires i < WaitedUpTo(Next(b, s)) && i < |b.pools| && w.pool == b.pools[i] && !b.stage.Idle?
    ensures WasCounted(Next(b, s), w) && Uncounted(Next(b, s).cells[w.pool].pool.tasks[w.ev])
  {
    hide Can, Next, NextCells, CellsGood, WorkersProgress, WaitedUpTo;
    OutByNow(b, s, w, i);
    CountedFixed(b, s);
    WorkerAfter(b, s, w);
  }

  /** A worker that the wait loop is past once the step is taken was through before it. */
  lemma OutByNow(b: Bus, s: BusStep, w: Worker, i: nat)
    requires CellsGood(b) && WorkersProgress(b) && Can(b, s) && w in b.counted
    requires i < WaitedUpTo(Next(b, s)) && i < |b.pools| && w.pool == b.pools[i]
    ensures WasCounted(b, w) && Uncounted(b.cells[w.pool].pool.tasks[w.ev])
  {
    assert WasCounted(b, w);
    hide Can, Next, NextCells, CellsGood, WorkersProgress, WaitedUpTo, CellTheorems.Inv;
    WaitLoop(b, s);
    if s == WaitNext && i == b.next {
      WaitedWorker(b, w);
    } else {
      AlreadyWaited(b, w, i);
    }
  }

  lemma AlreadyWaited(b: Bus, w: Worker, i: nat)
    requires WorkersProgress(b) && w in b.counted && i < WaitedUpTo(b) && i < |b.pools| && w.pool == b.pools[i]
    ensures WasCounted(b, w) && Uncounted(b.cells[w.pool].pool.tasks[w.ev])
  {}

  /** A counted worker of a pool whose wait returns is through. */
  lemma WaitedWorker(b: Bus, w: Worker)
    requires CellsGood(b) && WasCounted(b, w) && b.cells[w.pool].pool.wg == 0
    ensures Uncounted(b.cells[w.pool].pool.tasks[w.ev])
  {
    hide CellTheorems.Inv;
    ZeroMeansNone(b.cells[w.pool], w.ev);
  }

  lemma StepInv(b: Bus, s: BusStep)
    requires Inv(b) && Can(b, s)
    ensures Inv(Next(b, s))
  {
    hide CellsGood, RefsKnown, TakenProgress, WorkersProgress, Can, Next;
    KeepsCells(b, s);
    KeepsRefs(b, s);
    KeepsTaken(b, s);
    KeepsWorkers(b, s);
  }

  lemma {:induction false} RunInv(b: Bus, run: seq<BusStep>)
    requires Inv(b) && Runs(b, run)
    ensures Inv(EndOf(b, run))
    decreases |run|
  {
    hide Inv, Can, Next;
    if run != [] {
      StepInv(b, run[0]);
      RunInv(Next(b, run[0]), run[1..]);
    }
  }

  // ---------------------------------------------------------------- the shutdown order

  /** An aborted queue with an exited consumer has an empty buffer and no unfinished dispatch. */
  lemma DeadQueueSettled(c: Cell, id: QueueId)
    requires CellTheorems.Inv(c) && id in c.queues && Dead(c.queues[id])
    ensures var q := c.queues[id]; q.buf == [] && InFlight(q) == [] && q.accepted == Items(q.settled)
    ensures forall i :: 0 <= i < |c.queues[id].accepted| ==>
              var ev := c.queues[id].accepted[i].ev; ev in c.pool.tasks ==> Finished(c.pool.tasks[ev])
  {
    var q := c.queues[id];
    assert QueueInv(q) && Linked(c.pool.tasks, q);
    forall i | 0 <= i < |q.accepted| && q.accepted[i].ev in c.pool.tasks
      ensures Finished(c.pool.tasks[q.accepted[i].ev])
    {
      if !Finished(c.pool.tasks[q.accepted[i].ev]) { LiveIsCurrent(c, id, i); }
    }
  }

  /**
   * When Stop calls the handlers' Shutdown, every queue abortAll took is aborted, its consumer is gone, nothing is
   * pending or in flight in it and none of its events has an unfinished dispatch; and every worker that was counted
   * in a snapshotted pool when Stop began has gone through wg.Done.
   */
  lemma ShutdownAfterDrain(run: seq<BusStep>, b: Bus)
    requires Runs(EMPTY_BUS, run) && b == EndOf(EMPTY_BUS, run) && b.stage.CallingShutdown?
    ensures forall ref <- b.taken ::
      Known(b, ref) && Dead(QueueAt(b, ref)) && QueueAt(b, ref).buf == [] && InFlight(QueueAt(b, ref)) == []
    ensures forall ref <- b.taken, i | 0 <= i < |QueueAt(b, ref).accepted| ::
              var tasks, ev := b.cells[ref.pool].pool.tasks, QueueAt(b, ref).accepted[i].ev;
              ev in tasks ==> Finished(tasks[ev])
    ensures forall w <- b.counted ::
      w.pool in b.cells && w.ev in b.cells[w.pool].pool.tasks && Uncounted(b.cells[w.pool].pool.tasks[w.ev])
  {
    InitInv();
    RunInv(EMPTY_BUS, run);
    hide Inv, Runs, EndOf;
    forall ref <- b.taken
      ensures Known(b, ref) && Dead(QueueAt(b, ref)) && QueueAt(b, ref).buf == [] && InFlight(QueueAt(b, ref)) == []
      ensures forall i | 0 <= i < |QueueAt(b, ref).accepted| ::
        var tasks, ev := b.cells[ref.pool].pool.tasks, QueueAt(b, ref).accepted[i].ev;
        ev in tasks ==> Finished(tasks[ev])
    {
      TakenIsDead(b, ref);
      DeadQueueSettled(b.cells[ref.pool], ref.q);
    }
    forall w <- b.counted
      ensures w.pool in b.cells && w.ev in b.cells[w.pool].pool.tasks && Uncounted(b.cells[w.pool].pool.tasks[w.ev])
    {
      CountedIsDone(b, w);
    }
  }

  lemma TakenIsDead(b: Bus, ref: QRef)
    requires Inv(b) && b.stage.CallingShutdown? && ref in b.taken
    ensures Known(b, ref) && Dead(QueueAt(b, ref)) && CellTheorems.Inv(b.cells[ref.pool])
  {
    hide CellTheorems.Inv;
    var i :| 0 <= i < |b.taken| && b.taken[i] == ref;
    assert Known(b, b.taken[i]) && Dead(QueueAt(b, b.taken[i]));
  }

  lemma CountedIsDone(b: Bus, w: Worker)
    requires Inv(b) && b.stage.CallingShutdown? && w in b.counted
    ensures WasCounted(b, w) && Uncounted(b.cells[w.pool].pool.tasks[w.ev])
  {
    hide CellsGood, RefsKnown, TakenProgress;
    var i :| 0 <= i < |b.pools| && b.pools[i] == w.pool;
  }

  /** A cell step leaves the events of a dead queue as they are. */
  lemma FrozenCell(c: Cell, s: CellStep, id: QueueId)
    requires CellTheorems.Inv(c) && CanStep(c, s) && id in c.queues && c.queues[id].consumer.Exited?
    ensures var d := After(c, s); id in d.queues && StartsOf(d.pool, d.queues[id]) == StartsOf(c.pool, c.queues[id])
  {
    hide CellTheorems.Inv, CanStep, StartsOf, NextPool, NextQueues;
    DeadQueueFrozen(c, s, id);
  }

  /** The cell part of a bus step is what happens to the cells. */
  lemma PartMoves(b: Bus, s: BusStep)
    requires Can(b, s) && CellPart(b, s).Some?
    ensures var (p, cs) := CellPart(b, s).value;
      p in b.cells && CanStep(b.cells[p], cs) && NextCells(b, s) == b.cells[p := After(b.cells[p], cs)]
  {
    PartEnabled(b, s);
    hide CanStep, After;
  }

  /** Any other step leaves its whole cell alone. */
  lemma OtherCell(b: Bus, s: BusStep, p: PoolId)
    requires Can(b, s) && p in b.cells && !(CellPart(b, s).Some? && CellPart(b, s).value.0 == p)
    ensures p in NextCells(b, s) && NextCells(b, s)[p] == b.cells[p]
  {
    hide CanStep;
    CellAfter(b, s, p);
  }

  lemma FrozenStep(b: Bus, s: BusStep, ref: QRef)
    requires Inv(b) && Can(b, s) && Known(b, ref) && Dead(QueueAt(b, ref))
    ensures Known(Next(b, s), ref) && Dead(QueueAt(Next(b, s), ref))
    ensures var d := Next(b, s);
      StartsOf(d.cells[ref.pool].pool, QueueAt(d, ref)) == StartsOf(b.cells[ref.pool].pool, QueueAt(b, ref))
  {
    assert CellsGood(b);
    hide Inv, CellsGood, Can, Next, NextCells, StartsOf, CellPart;
    RefAfter(b, s, ref);
    NextKeepsCells(b, s);
    if CellPart(b, s).Some? && CellPart(b, s).value.0 == ref.pool {
      PartMoves(b, s);
      hide CanStep, After;
      FrozenCell(b.cells[ref.pool], CellPart(b, s).value.1, ref.q);
    } else {
      OtherCell(b, s, ref.pool);
    }
  }

  /** Whatever happens later, no event of a queue that Stop has joined enters Handle again. */
  lemma {:induction false} JoinedStaysSilent(b: Bus, run: seq<BusStep>, ref: QRef)
    requires Inv(b) && Runs(b, run) && Known(b, ref) && Dead(QueueAt(b, ref))
    ensures var d := EndOf(b, run);
      Known(d, ref) && Dead(QueueAt(d, ref))
        && StartsOf(d.cells[ref.pool].pool, QueueAt(d, ref)) == StartsOf(b.cells[ref.pool].pool, QueueAt(b, ref))
    decreases |run|
  {
    hide Inv, Can, Next, NextCells, StartsOf, Dead;
    if run != [] {
      StepInv(b, run[0]);
      FrozenStep(b, run[0], ref);
      JoinedStaysSilent(Next(b, run[0]), run[1..], ref);
    }
  }

  /**
   * Once Stop calls Shutdown, no event of a queue abortAll took enters Handle again, in any continuation: neither a
   * pending one nor one pushed later through a reference to the queue.
   */
  lemma NothingHandledAfterShutdown(run: seq<BusStep>, b: Bus, later: seq<BusStep>, ref: QRef)
    requires Runs(EMPTY_BUS, run) && b == EndOf(EMPTY_BUS, run) && b.stage.CallingShutdown? && ref in b.taken
    requires Runs(b, later)
    ensures var d := EndOf(b, later);
      Known(b, ref) && Known(d, ref)
        && StartsOf(d.cells[ref.pool].pool, QueueAt(d, ref)) == StartsOf(b.cells[ref.pool].pool, QueueAt(b, ref))
  {
    InitInv();
    RunInv(EMPTY_BUS, run);
    TakenIsDead(b, ref);
    hide Inv, Runs, EndOf;
    JoinedStaysSilent(b, later, ref);
  }

  // ---------------------------------------------------------------- Stop makes progress

  /** The values of a map, one for each key, in some order. */
  lemma {:induction false} Enumerate<K, V>(m: map<K, V>) returns (order: seq<V>)
    ensures |order| == |m| && forall x :: x in order <==> x in m.Values
    decreases |m|
  {
    if m == map[] {
      order := [];
    } else {
      var k :| k in m;
      assert (m - {k}).Keys == m.Keys - {k};
      var rest := Enumerate(m - {k});
      order := [m[k]] + rest;
      forall x ensures x in order <==> x in m.Values {
        if x in m.Values && x != m[k] {
          var j :| j in m && m[j] == x;
          assert j in m - {k} && (m - {k})[j] == x;
        }
      }
    }
  }

  predicate StopStep(s: BusStep) {
    s.TakeQueues? || s.AbortNext? || s.JoinNext? || s.WaitNext? || s.LoopEnds? || s.StopEnds?
  }

  /** A step of Stop's own thread, or one of a cell that needs no caller. */
  predicate OwnStep(s: BusStep) { StopStep(s) || (s.InCell? && CellDrain.Unprompted(s.s)) }

  ghost predicate HasWorkers(b: Bus) {
    forall p <- b.cells.Keys :: b.cells[p].pool.max >= 1 && b.cells[p].pool.pushCap >= 1
  }

  /** The pool Stop waits for: that of the queue it joins, or the one whose wait group it waits on. */
  function Awaited(b: Bus): Option<PoolId> {
    if b.stage.Joining? && b.next < |b.taken| then Some(b.taken[b.next].pool)
    else if b.stage.Waiting? && b.next < |b.pools| then Some(b.pools[b.next])
    else None
  }

  /**
   * Stop never deadlocks: when every pool has a worker, an unfinished Stop can take its next step, or the very pool
   * it waits for can move without being prompted.
   */
  lemma StopNeverStuck(b: Bus) returns (s: BusStep)
    requires Inv(b) && !b.stage.Idle? && HasWorkers(b)
    ensures Can(b, s)
    ensures StopStep(s) || (s.InCell? && CellDrain.Unprompted(s.s) && Awaited(b) == Some(s.pool))
  {
    if b.stage.Snapshot? {
      var order := Enumerate(b.live);
      s := TakeQueues(order);
    } else if b.stage.CallingShutdown? {
      s := StopEnds;
    } else if b.next >= (if b.stage.Waiting? then |b.pools| else |b.taken|) {
      s := LoopEnds;
    } else if b.stage.Aborting? {
      s := AbortNext;
    } else if b.stage.Joining? {
      s := JoinMoves(b);
    } else {
      s := WaitMoves(b);
    }
  }

  lemma JoinMoves(b: Bus) returns (s: BusStep)
    requires Inv(b) && b.stage.Joining? && b.next < |b.taken| && HasWorkers(b)
    ensures Can(b, s)
    ensures s == JoinNext || (s.InCell? && CellDrain.Unprompted(s.s) && s.pool == b.taken[b.next].pool)
  {
    hide Inv, CellTheorems.Inv, CanStep, CellDrain.Unprompted;
    JoinTarget(b);
    var ref := b.taken[b.next];
    s := JoinNext;
    if !QueueAt(b, ref).consumer.Exited? {
      var cs := UnjoinedMoves(b.cells[ref.pool], ref.q);
      hide Can;
      s := InCell(ref.pool, cs);
      CellMoveIsBusMove(b, ref.pool, cs);
    }
  }

  lemma CellMoveIsBusMove(b: Bus, p: PoolId, cs: CellStep)
    requires p in b.cells && CanStep(b.cells[p], cs) && CellDrain.Unprompted(cs)
    ensures Can(b, InCell(p, cs))
  {}

  lemma JoinTarget(b: Bus)
    requires Inv(b) && b.stage.Joining? && b.next < |b.taken|
    ensures var ref := b.taken[b.next];
      Known(b, ref) && QueueAt(b, ref).aborted && CellTheorems.Inv(b.cells[ref.pool])
  {
    hide CellTheorems.Inv;
    assert b.next < AbortedUpTo(b);
  }

  lemma WaitMoves(b: Bus) returns (s: BusStep)
    requires Inv(b) && b.stage.Waiting? && b.next < |b.pools| && HasWorkers(b)
    ensures Can(b, s)
    ensures s == WaitNext || (s.InCell? && CellDrain.Unprompted(s.s) && s.pool == b.pools[b.next])
  {
    var p := b.pools[b.next];
    assert p in b.cells && CellTheorems.Inv(b.cells[p]);
    hide Inv, CellTheorems.Inv;
    if b.cells[p].pool.wg == 0 {
      s := WaitNext;
    } else {
      var cs := CountedMoves(b.cells[p]);
      s := InCell(p, cs);
      CellMoveIsBusMove(b, p, cs);
    }
  }

  lemma UnjoinedMoves(c: Cell, id: QueueId) returns (cs: CellStep)
    requires CellTheorems.Inv(c) && c.pool.max >= 1 && c.pool.pushCap >= 1
    requires id in c.queues && c.queues[id].aborted && !c.queues[id].consumer.Exited?
    ensures CanStep(c, cs) && CellDrain.Unprompted(cs)
  {
    assert QueueInv(c.queues[id]);
    cs := CellDrain.NeverStuck(c);
  }

  lemma CountedMoves(c: Cell) returns (cs: CellStep)
    requires CellTheorems.Inv(c) && c.pool.max >= 1 && c.pool.pushCap >= 1 && c.pool.wg != 0
    ensures CanStep(c, cs) && CellDrain.Unprompted(cs)
  {
    if CellDrain.AtRest(c) { CellDrain.AllFinished(c); }
    cs := CellDrain.NeverStuck(c);
  }

  // ---------------------------------------------------------------- Stop ends

  function Left(next: nat, n: nat): nat { if next <= n then n - next else 0 }

  /** How many of its own steps Stop has still to take. */
  function StopWork(b: Bus): nat {
    match b.stage
    case Snapshot => 2 * |b.live| + |b.pools| + 5
    case Aborting => Left(b.next, |b.taken|) + |b.taken| + |b.pools| + 4
    case Joining => Left(b.next, |b.taken|) + |b.pools| + 3
    case Waiting => Left(b.next, |b.pools|) + 2
    case CallingShutdown => 1
    case Idle => 0
  }

  ghost function Rank(b: Bus): nat { Total(b.cells, CellDrain.Rank) + StopWork(b) }

  /** What the loops' steps and the steps of cells leave alone. */
  lemma LoopFields(b: Bus, s: BusStep)
    requires Can(b, s) && (s.InCell? || s.AbortNext? || s.JoinNext? || s.WaitNext?)
    ensures var d := Next(b, s);
      && d.stage == b.stage && d.taken == b.taken && d.pools == b.pools && d.live == b.live
      && d.next == if s.InCell? then b.next else b.next + 1
    ensures s.AbortNext? ==> b.stage.Aborting? && b.next < |b.taken|
    ensures s.JoinNext? ==> b.stage.Joining? && b.next < |b.taken|
    ensures s.WaitNext? ==> b.stage.Waiting? && b.next < |b.pools|
  {
    hide NextCells, CanStep, Known, QueueAt;
  }

  lemma StopWorkFalls(b: Bus, s: BusStep)
    requires Can(b, s) && OwnStep(s)
    ensures if StopStep(s) then StopWork(Next(b, s)) < StopWork(b) else StopWork(Next(b, s)) == StopWork(b)
  {
    if s.InCell? || s.AbortNext? || s.JoinNext? || s.WaitNext? {
      LoopFields(b, s);
      hide Can, Next;
    } else {
      hide NextCells, CanStep, Known, QueueAt;
    }
  }

  /** An abort leaves the cell with the same steps to take: the consumer discards what it would have dispatched. */
  lemma AbortKeepsRank(c: Cell, id: QueueId)
    requires CanStep(c, AbortQueue(id))
    ensures CellDrain.Rank(After(c, AbortQueue(id))) == CellDrain.Rank(c)
  {
    TotalUpdate(c.queues, id, Abort(c.queues[id]), CellDrain.QueueWeight);
  }

  lemma CellsRankFalls(b: Bus, s: BusStep)
    requires CellsGood(b) && Can(b, s) && OwnStep(s)
    ensures Total(NextCells(b, s), CellDrain.Rank) <= Total(b.cells, CellDrain.Rank)
    ensures s.InCell? ==> Total(NextCells(b, s), CellDrain.Rank) < Total(b.cells, CellDrain.Rank)
  {
    OneCellMoves(b, s);
    var part := CellPart(b, s);
    hide CanStep, CellDrain.Rank, After, NextCells, CellDrain.Unprompted;
    if part.Some? {
      var (p, cs) := part.value;
      hide Can, CellPart, OwnStep;
      if s.InCell? { MoveFalls(b.cells[p], cs); } else { AbortKeepsRank(b.cells[p], cs.q); }
      hide CellTheorems.Inv, CellsGood;
      TotalUpdate(b.cells, p, After(b.cells[p], cs), CellDrain.Rank);
    }
  }

  /** An own step moves the cells by its cell part and nothing else. */
  lemma OneCellMoves(b: Bus, s: BusStep)
    requires Can(b, s) && OwnStep(s)
    ensures CellPart(b, s).None? ==> NextCells(b, s) == b.cells && !s.InCell?
    ensures CellPart(b, s).Some? ==>
      var (p, cs) := CellPart(b, s).value;
      p in b.cells && CanStep(b.cells[p], cs) && NextCells(b, s) == b.cells[p := After(b.cells[p], cs)]
      && if s.InCell? then CellDrain.Unprompted(cs) else cs.AbortQueue?
  {
    if CellPart(b, s).Some? { PartMoves(b, s); }
    hide CanStep, After, CellDrain.Unprompted;
  }

  lemma MoveFalls(c: Cell, s: CellStep)
    requires CellTheorems.Inv(c) && CanStep(c, s) && CellDrain.Unprompted(s)
    ensures CellDrain.Rank(After(c, s)) < CellDrain.Rank(c)
  {
    hide CanStep, After, CellDrain.Rank, CellDrain.Unprompted;
    CellDrain.UnpromptedStep(c, s);
  }

  lemma RankFalls(b: Bus, s: BusStep)
    requires Inv(b) && Can(b, s) && OwnStep(s)
    ensures Rank(Next(b, s)) < Rank(b)
  {
    StopWorkFalls(b, s);
    assert CellsGood(b);
    CellsRankFalls(b, s);
    NextKeepsCells(b, s);
    hide Inv, Can, Next, NextCells, StopWork;
  }

  lemma KeepsWorkersThere(b: Bus, s: BusStep)
    requires Can(b, s) && OwnStep(s) && HasWorkers(b)
    ensures HasWorkers(Next(b, s))
  {
    NextKeepsCells(b, s);
    hide Next;
    forall p <- NextCells(b, s).Keys
      ensures NextCells(b, s)[p].pool.max >= 1 && NextCells(b, s)[p].pool.pushCap >= 1
    {
      SameCells(b, s, p);
      CellAfter(b, s, p);
      if CellPart(b, s).Some? && CellPart(b, s).value.0 == p {
        PartEnabled(b, s);
        CellDrain.CapacityStays(b.cells[p], CellPart(b, s).value.1);
      }
    }
  }

  lemma SameCells(b: Bus, s: BusStep, p: PoolId)
    requires Can(b, s) && OwnStep(s) && p in NextCells(b, s)
    ensures p in b.cells
  {}

  /**
   * Stop ends: a run of its own steps and of steps that need no caller is at most Rank(b) steps long, and one that
   * cannot be extended has brought Stop to its end.
   */
  lemma {:induction false} StopFinishes(b: Bus, run: seq<BusStep>)
    requires Inv(b) && HasWorkers(b) && Runs(b, run) && forall i :: 0 <= i < |run| ==> OwnStep(run[i])
    ensures |run| <= Rank(b)
    ensures (forall s :: Can(EndOf(b, run), s) ==> !OwnStep(s)) ==> EndOf(b, run).stage.Idle?
    decreases |run|
  {
    hide Inv, HasWorkers, Can, Next, Rank, OwnStep;
    if run == [] {
      if (forall s :: Can(b, s) ==> !OwnStep(s)) && !b.stage.Idle? {
        var s := StopMove(b);
        assert false;
      }
    } else {
      StepInv(b, run[0]);
      KeepsWorkersThere(b, run[0]);
      RankFalls(b, run[0]);
      assert forall i :: 0 <= i < |run[1..]| ==> run[1..][i] == run[i + 1];
      StopFinishes(Next(b, run[0]), run[1..]);
    }
  }

  lemma StopMove(b: Bus) returns (s: BusStep)
    requires Inv(b) && !b.stage.Idle? && HasWorkers(b)
    ensures Can(b, s) && OwnStep(s)
  {
    hide Inv, HasWorkers, Can;
    s := StopNeverStuck(b);
  }
}
