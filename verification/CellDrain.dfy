/** Left alone, a cell finishes: released queues drain, their consumers exit, and every token comes back. */
module CellDrain {
  import opened Sums
  import opened PoolModel
  import opened QueueModel
  import opened CellModel
  import opened CellSafety
  import opened CellTheorems

  /** A step that needs no new event, no queue operation, no cancellation and no caller. */
  predicate Unprompted(s: CellStep) {
    (s.InPool? && Internal(s.s)) || s.Write? || s.ReceiveItem? || s.ExitConsumer? || s.CheckItem? || s.SettleRefused?
      || s.SettleDone?
  }

  function Backlog(items: seq<Item>): nat {
    if items == [] then 0 else items[0].work + 20 + Backlog(items[1..])
  }

  function ConsumerWeight(k: Consumer): nat {
    match k
    case Receiving => 1
    case Received(item) => item.work + 20
    case Dispatching(_) => 3
    case Exited => 0
  }

  function QueueWeight(q: Queue): nat { Backlog(q.buf) + ConsumerWeight(q.consumer) }

  /** An upper bound on the unprompted steps still to come. */
  ghost function Rank(c: Cell): nat { PoolModel.Rank(c.pool) + Total(c.queues, QueueWeight) }

  /** The pool's part of the rank: an internal step lowers it, a dispatch raises it by the new task's steps. */
  lemma PoolRankMoves(c: Cell, s: CellStep)
    requires Core(c) && CanStep(c, s) && Unprompted(s)
    ensures s.InPool? || s.Write? ==> PoolModel.Rank(NextPool(c, s)) < PoolModel.Rank(c.pool)
    ensures s.CheckItem? && !c.queues[s.q].aborted ==>
              PoolModel.Rank(NextPool(c, s)) <= PoolModel.Rank(c.pool) + c.queues[s.q].consumer.item.work + 11
    ensures !s.InPool? && !s.Write? && !(s.CheckItem? && !c.queues[s.q].aborted) ==> NextPool(c, s) == c.pool
  {
    if s.InPool? {
      StepShrinks(c.pool, s.s);
    } else if s.Write? {
      StepShrinks(c.pool, Work(s.ev));
    } else if s.CheckItem? && !c.queues[s.q].aborted {
      var item := c.queues[s.q].consumer.item;
      TotalUpdate(c.pool.tasks, item.ev, Task(item.isCall, item.isCall, item.resp, item.work, FirstPhase(item.isCall)),
        Remaining);
    }
  }

  /** A queue's part: each section of the consumer lowers it, by the whole task when it dispatches. */
  lemma QueueRankMoves(c: Cell, s: CellStep)
    requires CanStep(c, s) && Unprompted(s)
    ensures s.InPool? || s.Write? ==> NextQueues(c, s) == c.queues
    ensures !s.InPool? && !s.Write? ==> Total(NextQueues(c, s), QueueWeight) < Total(c.queues, QueueWeight)
    ensures s.CheckItem? && !c.queues[s.q].aborted ==>
              Total(NextQueues(c, s), QueueWeight) + c.queues[s.q].consumer.item.work + 11
                < Total(c.queues, QueueWeight)
  {
    if !s.InPool? && !s.Write? {
      TotalUpdate(c.queues, s.q, NextQueues(c, s)[s.q], QueueWeight);
    }
  }

  lemma UnpromptedShrinks(c: Cell, s: CellStep)
    requires Core(c) && CanStep(c, s) && Unprompted(s)
    ensures Rank(After(c, s)) < Rank(c)
  {
    hide Core, CanStep, NextPool, NextQueues, NextChans, NextOrigin;
    PoolRankMoves(c, s);
    QueueRankMoves(c, s);
  }

  /** Nothing left to do: every dispatch finished, every queue empty, and its consumer gone if the channel is closed. */
  ghost predicate AtRest(c: Cell) {
    && (forall ev <- c.pool.tasks.Keys :: Finished(c.pool.tasks[ev]))
    && (forall id <- c.queues.Keys :: QueueAtRest(c.queues[id]))
  }

  predicate QueueAtRest(q: Queue) {
    q.buf == [] && (if q.closed then q.consumer.Exited? else q.consumer.Receiving?)
  }

  /** The step the consumer of a queue takes next when no dispatch is in its way. */
  function ConsumerStep(c: Cell, id: QueueId): CellStep
    requires id in c.queues
  {
    match c.queues[id].consumer
    case Received(_) => CheckItem(id)
    case Dispatching(item) => if InPhase(c.pool, item.ev, Refused) then SettleRefused(id) else SettleDone(id)
    case _ => if c.queues[id].buf == [] then ExitConsumer(id) else ReceiveItem(id)
  }

  lemma BusyQueueMoves(c: Cell, id: QueueId)
    requires Core(c) && id in c.queues && !QueueAtRest(c.queues[id])
    requires forall ev <- c.pool.tasks.Keys :: Finished(c.pool.tasks[ev])
    ensures CanStep(c, ConsumerStep(c, id)) && Unprompted(ConsumerStep(c, id))
  {
    var q := c.queues[id];
    assert QueueInv(q) && Linked(c.pool.tasks, q);
    if q.consumer.Dispatching? { CellReplies.ConsumersItemKnown(c, id); }
  }

  /** With at least one worker, a cell that is not at rest can move without being prompted. */
  lemma NeverStuck(c: Cell) returns (s: CellStep)
    requires Core(c) && c.pool.max >= 1 && c.pool.pushCap >= 1 && !AtRest(c)
    ensures CanStep(c, s) && Unprompted(s)
  {
    if ev :| ev in c.pool.tasks && !Finished(c.pool.tasks[ev]) {
      var ps := PoolModel.NeverStuck(c.pool, ev);
      s := InPool(ps);
      if ps.Recover? { assert TaskKnown(c, ps.ev, c.pool.tasks[ps.ev]); }
    } else {
      var id :| id in c.queues && !QueueAtRest(c.queues[id]);
      BusyQueueMoves(c, id);
      s := ConsumerStep(c, id);
    }
  }

  /** At rest, a released queue that was not aborted has handled every accepted event but the refused Calls. */
  lemma RestedQueueHandledAll(c: Cell, id: QueueId)
    requires CellTheorems.Inv(c) && AtRest(c) && id in c.queues && c.queues[id].released && !c.queues[id].aborted
    ensures c.queues[id].consumer.Exited?
    ensures HandledItems(c.queues[id].settled) == Without(c.queues[id].accepted, Refusals(c.queues[id]))
  {
    var q := c.queues[id];
    assert QueueInv(q) && QueueAtRest(q);
    QueueEventsDistinct(c, id);
    FifoConservation(q);
    assert HandledItems(q.settled) + InFlight(q) + q.buf == HandledItems(q.settled);
  }

  /**
   * Graceful release: from any reachable state, an unprompted run is at most Rank(c) steps long, and one that cannot
   * be extended leaves the cell at rest with both semaphores empty and no counted worker.
   */
  lemma {:induction false} CellDrains(c: Cell, run: seq<CellStep>)
    requires CellTheorems.Inv(c) && c.pool.max >= 1 && c.pool.pushCap >= 1
    requires CanRun(c, run) && forall i :: 0 <= i < |run| ==> Unprompted(run[i])
    ensures |run| <= Rank(c)
    ensures (forall s :: CanStep(AfterRun(c, run), s) ==> !Unprompted(s)) ==>
              AtRest(AfterRun(c, run)) && CellTheorems.Inv(AfterRun(c, run)) && TokensBack(AfterRun(c, run).pool)
    decreases |run|
  {
    hide CanStep, After, CellTheorems.Inv, Rank, AtRest, TokensBack, Unprompted;
    if run == [] {
      if forall s :: CanStep(c, s) ==> !Unprompted(s) { StillMeansAtRest(c); }
    } else {
      UnpromptedStep(c, run[0]);
      assert forall i :: 0 <= i < |run[1..]| ==> run[1..][i] == run[i + 1];
      CellDrains(After(c, run[0]), run[1..]);
    }
  }

  lemma StillMeansAtRest(c: Cell)
    requires CellTheorems.Inv(c) && c.pool.max >= 1 && c.pool.pushCap >= 1
    requires forall s :: CanStep(c, s) ==> !Unprompted(s)
    ensures AtRest(c) && TokensBack(c.pool)
  {
    hide CanStep, Core, CellOrder.OrderInv, CellReplies.ReplyInv, AtRest;
    if !AtRest(c) { var s := NeverStuck(c); }
    AllFinished(c);
  }

  lemma UnpromptedStep(c: Cell, s: CellStep)
    requires CellTheorems.Inv(c) && CanStep(c, s) && Unprompted(s)
    ensures CellTheorems.Inv(After(c, s)) && Rank(After(c, s)) < Rank(c)
    ensures After(c, s).pool.max == c.pool.max && After(c, s).pool.pushCap == c.pool.pushCap
  {
    hide CanStep, Core, NextPool, NextQueues, NextChans, NextOrigin, CellOrder.OrderInv, CellReplies.ReplyInv, Rank;
    StepInv(c, s);
    UnpromptedShrinks(c, s);
    CapacityStays(c, s);
  }

  predicate TokensBack(p: Pool) { p.semPush == 0 && p.semTotal == 0 && p.wg == 0 }

  lemma AllFinished(c: Cell)
    requires Core(c) && AtRest(c)
    ensures TokensBack(c.pool)
  {
    var p := c.pool;
    assert Where(p.tasks, HoldsPush) == {} && Where(p.tasks, HoldsTotal) == {} && Where(p.tasks, Counted) == {};
  }

  lemma CapacityStays(c: Cell, s: CellStep)
    requires CanStep(c, s)
    ensures NextPool(c, s).max == c.pool.max && NextPool(c, s).pushCap == c.pool.pushCap
  {}

  /** Unprompted steps accept nothing and leave the flags of every queue alone. */
  lemma UnpromptedKeepsQueue(c: Cell, s: CellStep, id: QueueId)
    requires CanStep(c, s) && Unprompted(s) && id in c.queues
    ensures id in NextQueues(c, s)
    ensures var q, r := c.queues[id], NextQueues(c, s)[id];
      r.accepted == q.accepted && r.released == q.released && r.aborted == q.aborted
  {}

  lemma {:induction false} UnpromptedRunKeepsQueue(c: Cell, run: seq<CellStep>, id: QueueId)
    requires CanRun(c, run) && (forall i :: 0 <= i < |run| ==> Unprompted(run[i])) && id in c.queues
    ensures id in AfterRun(c, run).queues
    ensures var q, r := c.queues[id], AfterRun(c, run).queues[id];
      r.accepted == q.accepted && r.released == q.released && r.aborted == q.aborted
    decreases |run|
  {
    if run != [] {
      UnpromptedKeepsQueue(c, run[0], id);
      assert forall i :: 0 <= i < |run[1..]| ==> Unprompted(run[1..][i]);
      hide CanStep, NextPool, NextQueues, NextChans, NextOrigin;
      UnpromptedRunKeepsQueue(After(c, run[0]), run[1..], id);
    }
  }

  /**
   * What release promises: once a queue is released and not aborted, every run that is left to itself ends with its
   * consumer gone and every event accepted so far handled in order, but for the Calls dispatch refused.
   */
  lemma ReleaseDrains(max: nat, reserved: int, before: seq<CellStep>, c: Cell, id: QueueId, run: seq<CellStep>)
    requires max >= 1 && Reached(max, reserved, before, c)
    requires id in c.queues && c.queues[id].released && !c.queues[id].aborted
    requires CanRun(c, run) && forall i :: 0 <= i < |run| ==> Unprompted(run[i])
    ensures |run| <= Rank(c) && id in AfterRun(c, run).queues
    ensures (forall s :: CanStep(AfterRun(c, run), s) ==> !Unprompted(s)) ==>
              var q := AfterRun(c, run).queues[id];
              q.consumer.Exited? && HandledItems(q.settled) == Without(c.queues[id].accepted, Refusals(q))
  {
    ReachedInv(max, reserved, before, c);
    CapacityReached(NewCell(max, reserved), before);
    hide CanStep, CellTheorems.Inv, Rank, AtRest, TokensBack;
    CellDrains(c, run);
    UnpromptedRunKeepsQueue(c, run, id);
    if forall s :: CanStep(AfterRun(c, run), s) ==> !Unprompted(s) { RestedQueueHandledAll(AfterRun(c, run), id); }
  }

  lemma {:induction false} CapacityReached(c: Cell, run: seq<CellStep>)
    requires CanRun(c, run)
    ensures AfterRun(c, run).pool.max == c.pool.max && AfterRun(c, run).pool.pushCap == c.pool.pushCap
    decreases |run|
  {
    if run != [] {
      CapacityStays(c, run[0]);
      hide CanStep, NextPool, NextQueues, NextChans, NextOrigin;
      CapacityReached(After(c, run[0]), run[1..]);
    }
  }
}
