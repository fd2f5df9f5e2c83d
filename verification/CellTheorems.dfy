/** What holds of a worker pool, its queues and its reply channels in every state that any run reaches. */
module CellTheorems {
  import opened Options
  import opened Sequences
  import opened PoolModel
  import opened QueueModel
  import opened CellModel
  import opened CellSafety
  import opened CellOrder
  import opened CellReplies

  ghost predicate Inv(c: Cell) { Core(c) && OrderInv(c) && ReplyInv(c) }

  lemma InitInv(max: nat, reserved: int)
    ensures Inv(NewCell(max, reserved))
  {
    InitCore(max, reserved);
  }

  lemma StepInv(c: Cell, s: CellStep)
    requires Inv(c) && CanStep(c, s)
    ensures Inv(After(c, s))
  {
    hide Core, OrderInv, ReplyInv, CanStep, After;
    KeepsCore(c, s);
    KeepsOrder(c, s);
    KeepsReplies(c, s);
  }

  lemma {:induction false} RunInv(c: Cell, run: seq<CellStep>)
    requires Inv(c) && CanRun(c, run)
    ensures Inv(AfterRun(c, run))
    decreases |run|
  {
    hide Inv, CanStep, After;
    if run != [] {
      StepInv(c, run[0]);
      RunInv(After(c, run[0]), run[1..]);
    }
  }

  /** A state that some run reaches from an empty pool. */
  ghost predicate Reached(max: nat, reserved: int, run: seq<CellStep>, c: Cell) {
    CanRun(NewCell(max, reserved), run) && c == AfterRun(NewCell(max, reserved), run)
  }

  lemma ReachedInv(max: nat, reserved: int, run: seq<CellStep>, c: Cell)
    requires Reached(max, reserved, run, c)
    ensures Inv(c)
  {
    InitInv(max, reserved);
    RunInv(NewCell(max, reserved), run);
  }

  /**
   * Queue order and conservation. In every reachable state of a queue that was not aborted, handled ++ in flight
   * ++ pending is the accepted sequence without the refused events, each of them a Call whose context is done.
   */
  lemma QueueConserves(max: nat, reserved: int, run: seq<CellStep>, c: Cell, id: QueueId)
    requires Reached(max, reserved, run, c) && id in c.queues && !c.queues[id].aborted
    ensures var q := c.queues[id];
      && HandledItems(q.settled) + InFlight(q) + q.buf == Without(q.accepted, Refusals(q))
      && forall k :: 0 <= k < |q.settled| && !q.settled[k].outcome.Handled? ==>
           q.settled[k].item.isCall && q.settled[k].item.ev in c.pool.cancelled
  {
    ReachedInv(max, reserved, run, c);
    var q := c.queues[id];
    assert QueueInv(q) && Linked(c.pool.tasks, q);
    QueueEventsDistinct(c, id);
    FifoConservation(q);
    forall k | 0 <= k < |q.settled| && !q.settled[k].outcome.Handled?
      ensures q.settled[k].item.isCall && q.settled[k].item.ev in c.pool.cancelled
    {
      assert SettledRight(c.pool.tasks, q.settled[k]);
    }
  }

  /** Handle is entered in queue order: by the handled items, then by the item in progress, and by nothing else. */
  lemma HandlesInOrder(max: nat, reserved: int, run: seq<CellStep>, c: Cell, id: QueueId)
    requires Reached(max, reserved, run, c) && id in c.queues
    ensures StartsOf(c.pool, c.queues[id]) ==
      EventsOf(HandledItems(c.queues[id].settled)) + Current(c.pool, c.queues[id])
  {
    ReachedInv(max, reserved, run, c);
  }

  /** At most one event of a queue is between dispatch and the close of its done channel. */
  lemma OneAtATime(max: nat, reserved: int, run: seq<CellStep>, c: Cell, id: QueueId, i: nat, j: nat)
    requires Reached(max, reserved, run, c) && id in c.queues
    requires i < |c.queues[id].accepted| && j < |c.queues[id].accepted|
    requires var a := c.queues[id].accepted[i].ev; a in c.pool.tasks && !Finished(c.pool.tasks[a])
    requires var b := c.queues[id].accepted[j].ev; b in c.pool.tasks && !Finished(c.pool.tasks[b])
    ensures i == j
  {
    ReachedInv(max, reserved, run, c);
    LiveIsCurrent(c, id, i);
    LiveIsCurrent(c, id, j);
  }

  /** Every event enters Handle at most once, and a rejected event never does. */
  lemma HandledAtMostOnce(max: nat, reserved: int, run: seq<CellStep>, c: Cell)
    requires Reached(max, reserved, run, c)
    ensures NoRepeats(c.pool.starts)
    ensures forall ev <- c.pool.starts :: ev in c.origin && !c.origin[ev].Rejected?
  {
    ReachedInv(max, reserved, run, c);
    forall ev <- c.pool.starts ensures ev in c.origin && !c.origin[ev].Rejected? {
      assert TaskKnown(c, ev, c.pool.tasks[ev]);
    }
  }

  /** The channel is closed exactly when `released` holds; nothing is ever sent on it or closed again after that. */
  lemma ChannelSafe(max: nat, reserved: int, run: seq<CellStep>, c: Cell, id: QueueId)
    requires Reached(max, reserved, run, c) && id in c.queues
    ensures c.queues[id].closed <==> c.queues[id].released
    ensures c.queues[id].faults == 0
    ensures c.queues[id].aborted ==> c.queues[id].released
  {
    ReachedInv(max, reserved, run, c);
    assert QueueInv(c.queues[id]);
  }

  lemma {:induction false} BudgetOverRun(c: Cell, run: seq<CellStep>, id: QueueId)
    requires Inv(c) && CanRun(c, run) && id in c.queues && c.queues[id].aborted
    ensures id in AfterRun(c, run).queues && AfterRun(c, run).queues[id].aborted
    ensures Budget(AfterRun(c, run).pool, AfterRun(c, run).queues[id]) <= Budget(c.pool, c.queues[id])
    decreases |run|
  {
    if run != [] {
      StepInv(c, run[0]);
      BudgetFalls(c, run[0], id);
      hide CanStep, NextPool, NextQueues, NextChans, NextOrigin, Inv, Budget;
      BudgetOverRun(After(c, run[0]), run[1..], id);
    }
  }

  /**
   * After abort's critical section at most one more event of the queue enters Handle, whatever happens next, and
   * none at all unless the consumer was already past its aborted check.
   */
  lemma AbortLimitsStarts(max: nat, reserved: int, before: seq<CellStep>, c: Cell, id: QueueId, run: seq<CellStep>)
    requires Reached(max, reserved, before, c) && CanStep(c, AbortQueue(id)) && CanRun(After(c, AbortQueue(id)), run)
    ensures var d := AfterRun(After(c, AbortQueue(id)), run);
      && id in c.queues && id in d.queues && d.queues[id].aborted
      && |StartsOf(d.pool, d.queues[id])| <= |StartsOf(c.pool, c.queues[id])|
        + (if MayStart(c.pool, c.queues[id]) then 1 else 0)
  {
    ReachedInv(max, reserved, before, c);
    StepInv(c, AbortQueue(id));
    AbortCommitsNothing(c, id);
    hide Inv, CanStep, After, Budget;
    BudgetOverRun(After(c, AbortQueue(id)), run, id);
    BudgetBounds(c.pool, c.queues[id]);
    BudgetBounds(AfterRun(After(c, AbortQueue(id)), run).pool, AfterRun(After(c, AbortQueue(id)), run).queues[id]);
  }

  lemma AbortCommitsNothing(c: Cell, id: QueueId)
    requires CanStep(c, AbortQueue(id))
    ensures var d := After(c, AbortQueue(id));
      id in c.queues && id in d.queues && d.queues[id].aborted
        && Budget(d.pool, d.queues[id]) == Budget(c.pool, c.queues[id])
  {}

  lemma BudgetBounds(p: Pool, q: Queue)
    ensures |StartsOf(p, q)| <= Budget(p, q) == |StartsOf(p, q)| + (if MayStart(p, q) then 1 else 0)
  {}

  /**
   * What a Call takes from its reply channel is the first value placed there, it concerns the Call's own event,
   * and it is a dispatch error only if dispatch refused the event, and otherwise comes out of its one handler.
   */
  lemma CallTakesFirstOwnValue(max: nat, reserved: int, run: seq<CellStep>, c: Cell, r: ChanId)
    requires Reached(max, reserved, run, c) && r in c.chans && c.chans[r].taken.Some?
    ensures c.chans[r].taken == c.chans[r].first && c.chans[r].taken.value.author == c.chans[r].owner
    ensures Justified(c.pool.tasks, c.chans[r].taken.value)
  {
    ReachedInv(max, reserved, run, c);
    assert GoodChan(c.chans[r]) && SourceRight(c.pool.tasks, c.chans[r]);
  }

  /** A queued Call that dispatch refused is answered with the dispatch error; a discarded one is never answered. */
  lemma UnhandledAnswers(max: nat, reserved: int, run: seq<CellStep>, c: Cell, id: QueueId, k: nat)
    requires Reached(max, reserved, run, c) && id in c.queues && k < |c.queues[id].settled|
    requires !c.queues[id].settled[k].outcome.Handled?
    ensures var item := c.queues[id].settled[k].item;
      && item.resp in c.chans
      && c.chans[item.resp].first ==
           if c.queues[id].settled[k].outcome.RefusedCall? then Some(Value(item.ev, DispatchError)) else None
  {
    ReachedInv(max, reserved, run, c);
    var q := c.queues[id];
    assert QueueInv(q) && Linked(c.pool.tasks, q) && RefusalsAnswered(c, q);
    Mentioned(q);
    assert ItemKnown(c, id, k, q.accepted[k]);
    assert SettledRight(c.pool.tasks, q.settled[k]);
    var ch := c.chans[q.settled[k].item.resp];
    assert GoodChan(ch) && SourceRight(c.pool.tasks, ch);
    if q.settled[k].outcome.RefusedCall? { assert Answered(c, q.settled[k].item); }
  }
}
