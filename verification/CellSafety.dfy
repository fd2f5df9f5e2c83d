/** What every step of a cell keeps. */
module CellSafety {
  import opened PoolModel
  import opened QueueModel
  import opened CellModel

  /** Each queue keeps its own invariant. */
  ghost predicate QueuesGood(c: Cell) { forall q <- c.queues.Keys :: QueueInv(c.queues[q]) }

  ghost predicate PoolGood(c: Cell) {
    && PoolModel.Inv(c.pool)
    && forall ev <- c.pool.tasks.Keys :: c.pool.tasks[ev].cancellable == c.pool.tasks[ev].isCall
  }

  /** Position `i` of queue `q` holds event `ev`. */
  ghost predicate Sits(c: Cell, q: QueueId, i: nat, ev: EventId) {
    q in c.queues && i < |c.queues[q].accepted| && c.queues[q].accepted[i].ev == ev
  }

  /** An accepted item has its own event and its own reply channel, which no other event shares. */
  ghost predicate ItemKnown(c: Cell, q: QueueId, i: nat, item: Item) {
    && item.ev in c.origin && c.origin[item.ev] == Queued(q, i)
    && item.resp in c.chans && c.chans[item.resp].owner == item.ev
  }

  ghost predicate ItemsKnown(c: Cell) {
    forall q <- c.queues.Keys :: forall i ::
      0 <= i < |c.queues[q].accepted| ==> ItemKnown(c, q, i, c.queues[q].accepted[i])
  }

  /** A dispatched event was submitted for dispatch or accepted by a queue, and carries its own reply channel. */
  ghost predicate TaskKnown(c: Cell, ev: EventId, t: Task) {
    && ev in c.origin && !c.origin[ev].Rejected?
    && t.resp in c.chans && c.chans[t.resp].owner == ev
    && (c.origin[ev].Queued? ==> Sits(c, c.origin[ev].q, c.origin[ev].index, ev))
  }

  ghost predicate TasksKnown(c: Cell) {
    forall ev <- c.pool.tasks.Keys :: TaskKnown(c, ev, c.pool.tasks[ev])
  }

  ghost predicate ChansKnown(c: Cell) {
    forall r <- c.chans.Keys :: c.chans[r].owner in c.origin
  }

  /** How the items of one queue stand in the pool, read off the queue's own bookkeeping. */
  ghost predicate Linked(tasks: map<EventId, Task>, q: Queue) {
    && (forall k :: 0 <= k < |q.settled| ==> SettledRight(tasks, q.settled[k]))
    && (forall i :: 0 <= i < |q.buf| ==> q.buf[i].ev !in tasks)
    && (q.consumer.Received? ==> q.consumer.item.ev !in tasks)
    && (q.consumer.Dispatching? ==> CarriedBy(tasks, q.consumer.item))
  }

  ghost predicate CarriedBy(tasks: map<EventId, Task>, item: Item) {
    && item.ev in tasks
    && tasks[item.ev].isCall == item.isCall
    && tasks[item.ev].resp == item.resp
  }

  ghost predicate SettledRight(tasks: map<EventId, Task>, s: Settled) {
    match s.outcome
    case Handled => CarriedBy(tasks, s.item) && tasks[s.item.ev].phase.Closed?
    case RefusedCall => CarriedBy(tasks, s.item) && tasks[s.item.ev].phase.Refused?
    case Discarded => s.item.ev !in tasks
  }

  ghost predicate AllLinked(c: Cell) { forall q <- c.queues.Keys :: Linked(c.pool.tasks, c.queues[q]) }

  ghost predicate Core(c: Cell) {
    PoolGood(c) && QueuesGood(c) && ItemsKnown(c) && TasksKnown(c) && ChansKnown(c) && AllLinked(c)
  }

  // ---------------------------------------------------------------- reading the invariant

  /** Where the k-th accepted item of a queue is. */
  lemma Position(q: Queue, i: nat)
    requires QueueInv(q) && i < |q.accepted|
    ensures i < |q.settled| ==> q.accepted[i] == q.settled[i].item
    ensures i >= |q.settled| + |InFlight(q)| ==> q.accepted[i] == q.buf[i - |q.settled| - |InFlight(q)|]
    ensures |q.settled| <= i < |q.settled| + |InFlight(q)| ==> InFlight(q) == [q.accepted[i]]
  {}

  /** An accepted item with an unfinished dispatch is the one its consumer is dispatching. */
  lemma LiveIsCurrent(c: Cell, q: QueueId, i: nat)
    requires QueuesGood(c) && AllLinked(c)
    requires q in c.queues && i < |c.queues[q].accepted|
    requires var ev := c.queues[q].accepted[i].ev; ev in c.pool.tasks && !Finished(c.pool.tasks[ev])
    ensures c.queues[q].consumer == Dispatching(c.queues[q].accepted[i]) && i == |c.queues[q].settled|
  {
    var queue := c.queues[q];
    Position(queue, i);
    assert Linked(c.pool.tasks, queue);
    assert i < |queue.settled| ==> SettledRight(c.pool.tasks, queue.settled[i]);
  }

  /** Two positions, in the same queue or in two, never hold the same event. */
  lemma EventsDistinct(c: Cell, q1: QueueId, i1: nat, q2: QueueId, i2: nat)
    requires ItemsKnown(c)
    requires q1 in c.queues && i1 < |c.queues[q1].accepted| && q2 in c.queues && i2 < |c.queues[q2].accepted|
    requires c.queues[q1].accepted[i1].ev == c.queues[q2].accepted[i2].ev
    ensures q1 == q2 && i1 == i2
  {
    assert ItemKnown(c, q1, i1, c.queues[q1].accepted[i1]) && ItemKnown(c, q2, i2, c.queues[q2].accepted[i2]);
  }

  lemma QueueEventsDistinct(c: Cell, id: QueueId)
    requires ItemsKnown(c) && id in c.queues
    ensures DistinctEvents(c.queues[id].accepted)
  {
    var accepted := c.queues[id].accepted;
    forall i: nat, j: nat | i < j < |accepted| ensures accepted[i].ev != accepted[j].ev {
      assert ItemKnown(c, id, i, accepted[i]) && ItemKnown(c, id, j, accepted[j]);
    }
  }

  /** The items a queue's bookkeeping mentions are accepted items. */
  lemma Mentioned(q: Queue)
    requires QueueInv(q)
    ensures forall k :: 0 <= k < |q.settled| ==> k < |q.accepted| && q.accepted[k] == q.settled[k].item
    ensures q.consumer.Received? || q.consumer.Dispatching? ==>
              |q.settled| < |q.accepted| && q.accepted[|q.settled|] == q.consumer.item
    ensures forall j :: 0 <= j < |q.buf| ==>
              |q.accepted| == |q.settled| + |InFlight(q)| + |q.buf|
              && q.accepted[|q.settled| + |InFlight(q)| + j] == q.buf[j]
  {}

  // ---------------------------------------------------------------- preservation, one conjunct at a time

  lemma KeepsPool(c: Cell, s: CellStep)
    requires Core(c) && CanStep(c, s)
    ensures PoolGood(After(c, s))
  {
    var ps := PoolStep(c, s);
    if ps.Some? { StepKeepsInv(c.pool, ps.value); }
    forall ev <- NextPool(c, s).tasks.Keys
      ensures NextPool(c, s).tasks[ev].cancellable == NextPool(c, s).tasks[ev].isCall
    {
      TaskOrigin(c, s, ev);
    }
  }

  lemma KeepsQueues(c: Cell, s: CellStep)
    requires Core(c) && CanStep(c, s)
    ensures QueuesGood(After(c, s))
  {
    hide Core, CanStep, NextQueues, QueueInv;
    forall id <- NextQueues(c, s).Keys ensures QueueInv(NextQueues(c, s)[id]) {
      KeepsQueue(c, s, id);
    }
  }

  lemma KeepsQueue(c: Cell, s: CellStep, id: QueueId)
    requires Core(c) && CanStep(c, s) && id in NextQueues(c, s)
    ensures QueueInv(NextQueues(c, s)[id])
  {
    if s == SettleRefused(id) { RefusedIsCall(c, id); }
    if id in c.queues { QueueSection(c, s, id); } else { BirthAndExitInv(NextQueues(c, s)[id], s.cap); }
  }

  lemma QueueSection(c: Cell, s: CellStep, id: QueueId)
    requires CanStep(c, s) && id in c.queues && QueueInv(c.queues[id])
    requires s == SettleRefused(id) ==> c.queues[id].consumer.item.isCall
    ensures QueueInv(NextQueues(c, s)[id])
  {
    var q := c.queues[id];
    hide QueueInv;
    if s.Offer? { EnqueueKeepsInv(q, s.item); }
    else if s.ReleaseQueue? || s.AbortQueue? { CloseKeepsInv(q); }
    else if s == ReceiveItem(id) { ReceiveKeepsInv(q); }
    else if s == ExitConsumer(id) { BirthAndExitInv(q, 0); }
    else if s == CheckItem(id) { CheckKeepsInv(q); }
    else if s == SettleRefused(id) { SettleKeepsInv(q, RefusedCall); }
    else if s == SettleDone(id) { SettleKeepsInv(q, Handled); }
  }

  /** Dispatch never refuses a Push: its context is never done. */
  lemma RefusedIsCall(c: Cell, id: QueueId)
    requires Core(c) && CanStep(c, SettleRefused(id))
    ensures c.queues[id].consumer.item.isCall && c.queues[id].consumer.item.ev in c.pool.cancelled
  {
    var item := c.queues[id].consumer.item;
    assert Linked(c.pool.tasks, c.queues[id]);
    assert GoodTask(c.pool.tasks[item.ev]);
  }

  /** Accepted sequences only grow, at the end, and only by an accepted Offer. */
  lemma AcceptedGrows(c: Cell, s: CellStep, q: QueueId)
    requires CanStep(c, s) && QueuesGood(c) && q in c.queues
    ensures q in NextQueues(c, s)
    ensures var before, after := c.queues[q].accepted, NextQueues(c, s)[q].accepted;
      after == if s.Offer? && s.q == q && Enqueue(c.queues[q], s.item).1.Accepted? then before + [s.item] else before
  {
    if s.Offer? && s.q == q { EnqueueKeepsInv(c.queues[q], s.item); }
  }

  /** Owners never change and channels are never forgotten. */
  lemma OwnersFixed(c: Cell, s: CellStep)
    requires CanStep(c, s)
    ensures forall r <- c.chans.Keys :: r in NextChans(c, s) && NextChans(c, s)[r].owner == c.chans[r].owner
    ensures forall ev <- c.origin.Keys :: ev in NextOrigin(c, s) && NextOrigin(c, s)[ev] == c.origin[ev]
  {}

  /** An accepted item stays known. */
  lemma ItemStaysKnown(c: Cell, s: CellStep, q: QueueId, i: nat, item: Item)
    requires CanStep(c, s) && ItemKnown(c, q, i, item)
    ensures ItemKnown(After(c, s), q, i, item)
  {
    hide CanStep, NextPool, NextQueues, NextChans, NextOrigin;
    OwnersFixed(c, s);
  }

  /** An item that is accepted now becomes known, with a reply channel of its own. */
  lemma NewItemKnown(c: Cell, s: CellStep)
    requires CanStep(c, s) && s.Offer? && Enqueue(c.queues[s.q], s.item).1.Accepted?
    ensures ItemKnown(After(c, s), s.q, |c.queues[s.q].accepted|, s.item)
  {
    hide NextPool, NextQueues, Enqueue;
  }

  /** A queue that is not there yet is created empty. */
  lemma NewQueueEmpty(c: Cell, s: CellStep, q: QueueId)
    requires CanStep(c, s) && q in NextQueues(c, s) && q !in c.queues
    ensures NextQueues(c, s)[q].accepted == []
  {
    hide Enqueue;
  }

  lemma KeepsItem(c: Cell, s: CellStep, q: QueueId, i: nat)
    requires QueuesGood(c) && ItemsKnown(c) && CanStep(c, s)
    requires q in NextQueues(c, s) && i < |NextQueues(c, s)[q].accepted|
    ensures ItemKnown(After(c, s), q, i, NextQueues(c, s)[q].accepted[i])
  {
    hide CanStep, QueuesGood, NextQueues, After, Enqueue, ItemKnown;
    if q in c.queues {
      AcceptedGrows(c, s, q);
      if i < |c.queues[q].accepted| {
        assert ItemKnown(c, q, i, c.queues[q].accepted[i]);
        ItemStaysKnown(c, s, q, i, c.queues[q].accepted[i]);
      } else {
        NewItemKnown(c, s);
      }
    } else {
      NewQueueEmpty(c, s, q);
    }
  }

  lemma KeepsItems(c: Cell, s: CellStep)
    requires Core(c) && CanStep(c, s)
    ensures ItemsKnown(After(c, s))
  {
    assert QueuesGood(c) && ItemsKnown(c);
    hide Core, CanStep, QueuesGood, ItemKnown, NextQueues, NextPool, NextChans, NextOrigin;
    forall q <- NextQueues(c, s).Keys, i: nat | i < |NextQueues(c, s)[q].accepted|
      ensures ItemKnown(After(c, s), q, i, NextQueues(c, s)[q].accepted[i])
    {
      KeepsItem(c, s, q, i);
    }
  }

  lemma KeepsChansKnown(c: Cell, s: CellStep)
    requires Core(c) && CanStep(c, s)
    ensures ChansKnown(After(c, s))
  {
    OwnersFixed(c, s);
  }

  /** A task after the step: the one that was there, possibly in a new phase, or the step's own dispatch. */
  lemma TaskOrigin(c: Cell, s: CellStep, ev: EventId)
    requires CanStep(c, s) && ev in NextPool(c, s).tasks
    ensures ev in c.pool.tasks ==>
      NextPool(c, s).tasks[ev] == c.pool.tasks[ev].(phase := NextPool(c, s).tasks[ev].phase)
    ensures ev !in c.pool.tasks ==>
      || (s.SubmitDirect? && s.ev == ev
        && NextPool(c, s).tasks[ev] == Task(s.isCall, s.isCall, s.chan, s.work, FirstPhase(s.isCall)))
      || (s.CheckItem? && !c.queues[s.q].aborted && c.queues[s.q].consumer.item.ev == ev
          && CarriedBy(NextPool(c, s).tasks, c.queues[s.q].consumer.item)
          && NextPool(c, s).tasks[ev].cancellable == NextPool(c, s).tasks[ev].isCall)
  {}

  lemma KeepsTasks(c: Cell, s: CellStep)
    requires Core(c) && CanStep(c, s)
    ensures TasksKnown(After(c, s))
  {
    var d := After(c, s);
    OwnersFixed(c, s);
    forall ev <- d.pool.tasks.Keys ensures TaskKnown(d, ev, d.pool.tasks[ev]) {
      TaskOrigin(c, s, ev);
      if ev in c.pool.tasks {
        assert TaskKnown(c, ev, c.pool.tasks[ev]);
        if c.origin[ev].Queued? { AcceptedGrows(c, s, c.origin[ev].q); }
      } else if s.CheckItem? {
        var queue := c.queues[s.q];
        Mentioned(queue);
        AcceptedGrows(c, s, s.q);
        assert ItemKnown(c, s.q, |queue.settled|, queue.accepted[|queue.settled|]);
        assert Sits(d, s.q, |queue.settled|, ev);
      }
    }
  }

  /** Finished tasks stay as they are, and tasks are never forgotten. */
  lemma TasksAdvance(c: Cell, s: CellStep, ev: EventId)
    requires CanStep(c, s) && ev in c.pool.tasks
    ensures ev in NextPool(c, s).tasks && CarriedSame(c.pool.tasks[ev], NextPool(c, s).tasks[ev])
    ensures Finished(c.pool.tasks[ev]) ==> NextPool(c, s).tasks[ev] == c.pool.tasks[ev]
  {}

  predicate CarriedSame(t: Task, u: Task) { u == t.(phase := u.phase) }

  /** A queue that the step leaves alone stays linked, provided the step dispatches none of its items. */
  lemma StaysLinked(c: Cell, s: CellStep, q: Queue)
    requires CanStep(c, s) && Linked(c.pool.tasks, q)
    requires forall ev :: ev in NextPool(c, s).tasks && ev !in c.pool.tasks ==>
      && (forall k :: 0 <= k < |q.settled| ==> q.settled[k].item.ev != ev)
      && (forall i :: 0 <= i < |q.buf| ==> q.buf[i].ev != ev)
      && (q.consumer.Received? ==> q.consumer.item.ev != ev)
    ensures Linked(NextPool(c, s).tasks, q)
  {
    var tasks := NextPool(c, s).tasks;
    forall k | 0 <= k < |q.settled| ensures SettledRight(tasks, q.settled[k]) {
      assert SettledRight(c.pool.tasks, q.settled[k]);
      if !q.settled[k].outcome.Discarded? { TasksAdvance(c, s, q.settled[k].item.ev); }
    }
    if q.consumer.Dispatching? { TasksAdvance(c, s, q.consumer.item.ev); }
  }

  /** The event a step dispatches sits in no other place of any queue. */
  lemma FreshTaskElsewhere(c: Cell, s: CellStep, q: QueueId, ev: EventId)
    requires Core(c) && CanStep(c, s) && q in c.queues && ev in NextPool(c, s).tasks && ev !in c.pool.tasks
    ensures forall k :: 0 <= k < |c.queues[q].settled| ==> c.queues[q].settled[k].item.ev != ev
    ensures forall i :: 0 <= i < |c.queues[q].buf| ==> c.queues[q].buf[i].ev != ev
    ensures c.queues[q].consumer.Received? && c.queues[q].consumer.item.ev == ev ==> s.CheckItem? && s.q == q
  {
    TaskOrigin(c, s, ev);
    Mentioned(c.queues[q]);
    forall i | 0 <= i < |c.queues[q].accepted| && c.queues[q].accepted[i].ev == ev
      ensures s.CheckItem? && s.q == q && i == |c.queues[q].settled|
    {
      assert ItemKnown(c, q, i, c.queues[q].accepted[i]);
      assert s.CheckItem?;
      Mentioned(c.queues[s.q]);
      EventsDistinct(c, q, i, s.q, |c.queues[s.q].settled|);
    }
  }

  lemma KeepsLinks(c: Cell, s: CellStep)
    requires Core(c) && CanStep(c, s)
    ensures AllLinked(After(c, s))
  {
    var d := After(c, s);
    forall q <- d.queues.Keys ensures Linked(d.pool.tasks, d.queues[q]) {
      if q in c.queues {
        forall ev | ev in d.pool.tasks && ev !in c.pool.tasks
          ensures (forall k :: 0 <= k < |c.queues[q].settled| ==> c.queues[q].settled[k].item.ev != ev)
               && (forall i :: 0 <= i < |c.queues[q].buf| ==> c.queues[q].buf[i].ev != ev)
               && (c.queues[q].consumer.Received? && c.queues[q].consumer.item.ev == ev ==> s.CheckItem? && s.q == q)
        {
          FreshTaskElsewhere(c, s, q, ev);
        }
        KeepsLink(c, s, q);
      }
    }
  }

  lemma KeepsLink(c: Cell, s: CellStep, q: QueueId)
    requires Core(c) && CanStep(c, s) && q in c.queues
    requires forall ev :: ev in NextPool(c, s).tasks && ev !in c.pool.tasks ==>
      && (forall k :: 0 <= k < |c.queues[q].settled| ==> c.queues[q].settled[k].item.ev != ev)
      && (forall i :: 0 <= i < |c.queues[q].buf| ==> c.queues[q].buf[i].ev != ev)
      && (c.queues[q].consumer.Received? && c.queues[q].consumer.item.ev == ev ==> s.CheckItem? && s.q == q)
    ensures Linked(NextPool(c, s).tasks, NextQueues(c, s)[q])
  {
    var before := c.queues[q];
    assert Linked(c.pool.tasks, before);
    if s.CheckItem? && s.q == q && !before.aborted {
      StaysLinked(c, s, before.(consumer := Receiving));
    } else {
      StaysLinked(c, s, before);
      QueueMoves(c, s, q);
    }
  }

  /** Every queue section but the dispatch keeps the queue linked to an unchanged pool. */
  lemma QueueMoves(c: Cell, s: CellStep, q: QueueId)
    requires Core(c) && CanStep(c, s) && q in c.queues && Linked(NextPool(c, s).tasks, c.queues[q])
    requires !(s.CheckItem? && s.q == q && !c.queues[q].aborted)
    ensures Linked(NextPool(c, s).tasks, NextQueues(c, s)[q])
  {
    var tasks := NextPool(c, s).tasks;
    if s.Offer? {
      assert QueueInv(c.queues[s.q]);
      assert s.item.ev in c.pool.tasks ==> TaskKnown(c, s.item.ev, c.pool.tasks[s.item.ev]);
      assert NextPool(c, s) == c.pool;
      hide Core;
      OfferLinks(tasks, c.queues[s.q], s.item);
    } else if s.SettleRefused? || s.SettleDone? || s.CheckItem? {
      var outcome := if s.SettleRefused? then RefusedCall else if s.SettleDone? then Handled else Discarded;
      if s.q == q {
        assert NextPool(c, s) == c.pool;
        SettleLinks(tasks, c.queues[q], outcome);
      }
    } else {
      OtherMoves(c, s, q);
    }
  }

  lemma OtherMoves(c: Cell, s: CellStep, q: QueueId)
    requires CanStep(c, s) && q in c.queues
    requires !s.Offer? && !s.SettleRefused? && !s.SettleDone? && !s.CheckItem?
    ensures forall tasks :: Linked(tasks, c.queues[q]) ==> Linked(tasks, NextQueues(c, s)[q])
  {}

  lemma OfferLinks(tasks: map<EventId, Task>, q: Queue, item: Item)
    requires QueueInv(q) && item.ev !in tasks
    ensures Linked(tasks, q) ==> Linked(tasks, Enqueue(q, item).0)
  {
    EnqueueKeepsInv(q, item);
  }

  lemma SettleLinks(tasks: map<EventId, Task>, q: Queue, outcome: Outcome)
    requires Linked(tasks, q) && (q.consumer.Received? || q.consumer.Dispatching?)
    requires SettledRight(tasks, Settled(q.consumer.item, outcome))
    ensures Linked(tasks, Settle(q, outcome))
  {}

  lemma InitCore(max: nat, reserved: int)
    ensures Core(NewCell(max, reserved))
  {
    InitInv(max, reserved);
  }

  lemma KeepsCore(c: Cell, s: CellStep)
    requires Core(c) && CanStep(c, s)
    ensures Core(After(c, s))
  {
    KeepsPool(c, s);
    KeepsQueues(c, s);
    KeepsItems(c, s);
    KeepsTasks(c, s);
    KeepsChansKnown(c, s);
    KeepsLinks(c, s);
  }
}
