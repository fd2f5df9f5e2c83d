/** In which order, and how often, the events of one queue enter their handler. */
module CellOrder {
  import opened PoolModel
  import opened QueueModel
  import opened CellModel
  import opened CellSafety

  function EventsOf(items: seq<Item>): (evs: seq<EventId>)
    ensures |evs| == |items|
  {
    seq(|items|, i requires 0 <= i < |items| => items[i].ev)
  }

  /** The event the consumer is dispatching, once it has entered Handle. */
  ghost function Current(p: Pool, q: Queue): seq<EventId> {
    if q.consumer.Dispatching? && q.consumer.item.ev in p.tasks && Started(p.tasks[q.consumer.item.ev])
    then [q.consumer.item.ev] else []
  }

  /** The consumer is past its aborted check with an item that has not entered Handle and still may. */
  ghost predicate MayStart(p: Pool, q: Queue) {
    && q.consumer.Dispatching? && q.consumer.item.ev in p.tasks
    && !Started(p.tasks[q.consumer.item.ev]) && !p.tasks[q.consumer.item.ev].phase.Refused?
  }

  /** Handle entries follow the queue's order: first the handled items, then the one in progress. */
  ghost predicate InOrder(p: Pool, q: Queue) {
    StartsOf(p, q) == EventsOf(HandledItems(q.settled)) + Current(p, q)
  }

  /** The Handle entries of a queue so far, plus the one its consumer is already committed to. */
  ghost function Budget(p: Pool, q: Queue): nat { |StartsOf(p, q)| + (if MayStart(p, q) then 1 else 0) }

  ghost predicate OrderInv(c: Cell) { forall id <- c.queues.Keys :: InOrder(c.pool, c.queues[id]) }

  lemma OnlyAppend(log: seq<EventId>, x: EventId, ids: set<EventId>)
    ensures Only(log + [x], ids) == Only(log, ids) + (if x in ids then [x] else [])
  {
    assert (log + [x])[..|log + [x]| - 1] == log;
  }

  lemma {:induction false} OnlySame(log: seq<EventId>, ids: set<EventId>, more: set<EventId>)
    requires forall x :: x in log ==> (x in ids <==> x in more)
    ensures Only(log, ids) == Only(log, more)
    decreases |log|
  {
    if log != [] {
      assert log[|log| - 1] in log;
      OnlySame(log[..|log| - 1], ids, more);
    }
  }

  /** The Handle log after a step. */
  lemma StartsAfter(c: Cell, s: CellStep)
    requires CanStep(c, s)
    ensures NextPool(c, s).starts ==
      if s.InPool? && s.s.Start? then c.pool.starts + [s.s.ev] else c.pool.starts
  {}

  /** The step enters Handle for an event of queue `id`. */
  ghost predicate Enters(c: Cell, s: CellStep, id: QueueId)
    requires id in c.queues
  {
    s.InPool? && s.s.Start? && s.s.ev in Events(c.queues[id].accepted)
  }

  /** What the step adds to queue `id`'s Handle entries. */
  ghost function Entered(c: Cell, s: CellStep, id: QueueId): seq<EventId>
    requires id in c.queues
  {
    if Enters(c, s, id) then [s.s.ev] else []
  }

  /** What the step adds to queue `id`'s handled items. */
  ghost function Done(c: Cell, s: CellStep, id: QueueId): seq<Item>
    requires id in c.queues && CanStep(c, s)
  {
    if s == SettleDone(id) then [c.queues[id].consumer.item] else []
  }

  /** How one queue's part of the Handle log changes. */
  lemma StartsOfAfter(c: Cell, s: CellStep, id: QueueId)
    requires Core(c) && CanStep(c, s) && id in c.queues
    ensures id in NextQueues(c, s)
    ensures StartsOf(NextPool(c, s), NextQueues(c, s)[id]) ==
              StartsOf(c.pool, c.queues[id]) + Entered(c, s, id)
  {
    StartsAfter(c, s);
    AcceptedGrows(c, s, id);
    if NextQueues(c, s)[id].accepted != c.queues[id].accepted {
      StartsKnown(c);
      assert s.item.ev !in c.origin;
      hide Core, CanStep, NextPool, NextQueues;
      NewEventNotStarted(c.pool.starts, c.queues[id].accepted, s.item);
    } else if s.InPool? && s.s.Start? {
      hide Core;
      OnlyAppend(c.pool.starts, s.s.ev, Events(c.queues[id].accepted));
    }
  }

  lemma StartsKnown(c: Cell)
    requires Core(c)
    ensures forall ev <- c.pool.starts :: ev in c.origin
  {
    forall ev <- c.pool.starts ensures ev in c.origin {
      assert TaskKnown(c, ev, c.pool.tasks[ev]);
    }
  }

  lemma NewEventNotStarted(log: seq<EventId>, items: seq<Item>, item: Item)
    requires item.ev !in log
    ensures Only(log, Events(items + [item])) == Only(log, Events(items))
  {
    assert Events(items + [item]) == Events(items) + {item.ev} by {
      assert forall i :: 0 <= i < |items| ==> (items + [item])[i] == items[i];
      assert (items + [item])[|items|] == item;
    }
    OnlySame(log, Events(items), Events(items + [item]));
  }

  /** Start enters Handle for a queued event only if that event is the one its consumer is dispatching. */
  lemma StartIsCurrent(c: Cell, ev: EventId, id: QueueId)
    requires Core(c) && PoolModel.Enabled(c.pool, Start(ev)) && id in c.queues && ev in Events(c.queues[id].accepted)
    ensures MayStart(c.pool, c.queues[id]) && c.queues[id].consumer.item.ev == ev
  {
    var i :| 0 <= i < |c.queues[id].accepted| && c.queues[id].accepted[i].ev == ev;
    LiveIsCurrent(c, id, i);
  }

  /** A task enters Handle only by Start. */
  lemma StartedAfter(c: Cell, s: CellStep, ev: EventId)
    requires Core(c) && CanStep(c, s) && ev in c.pool.tasks
    ensures ev in NextPool(c, s).tasks
    ensures Started(NextPool(c, s).tasks[ev]) <==> Started(c.pool.tasks[ev]) || (s.InPool? && s.s == Start(ev))
    ensures c.pool.tasks[ev].phase.Refused? ==> NextPool(c, s).tasks[ev].phase.Refused?
  {
    var ps := PoolStep(c, s);
    if ps.Some? && !ps.value.Cancel? { StartedOnce(c.pool, ps.value); }
    TasksAdvance(c, s, ev);
  }

  lemma HandledAppend(s: seq<Settled>, x: Settled)
    ensures HandledItems(s + [x]) == HandledItems(s) + (if x.outcome.Handled? then [x.item] else [])
  {
    assert (s + [x])[..|s + [x]| - 1] == s;
  }

  /** How a step changes the handled items of one queue. */
  lemma HandledAfter(c: Cell, s: CellStep, id: QueueId)
    requires CanStep(c, s) && id in c.queues
    ensures HandledItems(NextQueues(c, s)[id].settled) ==
              HandledItems(c.queues[id].settled) + Done(c, s, id)
  {
    var q := c.queues[id];
    if s == SettleDone(id) {
      HandledAppend(q.settled, Settled(q.consumer.item, Handled));
    } else if s == SettleRefused(id) {
      HandledAppend(q.settled, Settled(q.consumer.item, RefusedCall));
    } else if s == CheckItem(id) {
      HandledAppend(q.settled, Settled(q.consumer.item, Discarded));
    }
  }

  /** How a step changes the current entry of one queue. */
  lemma CurrentAfter(c: Cell, s: CellStep, id: QueueId)
    requires Core(c) && CanStep(c, s) && id in c.queues
    ensures id in NextQueues(c, s)
    ensures s != SettleDone(id) ==>
      Current(NextPool(c, s), NextQueues(c, s)[id]) == Current(c.pool, c.queues[id]) + Entered(c, s, id)
    ensures s == SettleDone(id) ==>
              Current(NextPool(c, s), NextQueues(c, s)[id]) == []
                && Current(c.pool, c.queues[id]) == [c.queues[id].consumer.item.ev]
  {
    var q := c.queues[id];
    ConsumerAfter(c, s, id);
    hide Core, NextPool, NextQueues;
    if q.consumer.Dispatching? {
      CurrentWhileDispatching(c, s, id);
    } else {
      if Enters(c, s, id) { StartIsCurrent(c, s.s.ev, id); }
      if s == CheckItem(id) && !q.aborted { FreshNotStarted(c, s); }
    }
  }

  lemma FreshNotStarted(c: Cell, s: CellStep)
    requires CanStep(c, s) && s.CheckItem? && !c.queues[s.q].aborted
    ensures var ev := c.queues[s.q].consumer.item.ev; ev in NextPool(c, s).tasks && !Started(NextPool(c, s).tasks[ev])
  {}

  lemma CurrentWhileDispatching(c: Cell, s: CellStep, id: QueueId)
    requires Core(c) && CanStep(c, s) && id in c.queues && c.queues[id].consumer.Dispatching?
    ensures id in NextQueues(c, s)
    ensures s != SettleDone(id) ==>
      Current(NextPool(c, s), NextQueues(c, s)[id]) == Current(c.pool, c.queues[id]) + Entered(c, s, id)
    ensures s == SettleDone(id) ==>
              Current(NextPool(c, s), NextQueues(c, s)[id]) == []
                && Current(c.pool, c.queues[id]) == [c.queues[id].consumer.item.ev]
  {
    hide Core, NextPool, NextQueues;
    EnteredIsCurrent(c, s, id);
    ConsumerAfter(c, s, id);
    StartedAfter(c, s, c.queues[id].consumer.item.ev);
  }

  /** While a consumer dispatches, the only event of its queue that can enter Handle is its own. */
  lemma EnteredIsCurrent(c: Cell, s: CellStep, id: QueueId)
    requires Core(c) && CanStep(c, s) && id in c.queues && c.queues[id].consumer.Dispatching?
    ensures c.queues[id].consumer.item.ev in c.pool.tasks
    ensures Enters(c, s, id) <==> s == InPool(Start(c.queues[id].consumer.item.ev))
    ensures Enters(c, s, id) ==> !Started(c.pool.tasks[c.queues[id].consumer.item.ev])
    ensures s == SettleDone(id) ==> Started(c.pool.tasks[c.queues[id].consumer.item.ev])
    ensures s == SettleRefused(id) ==> !Started(c.pool.tasks[c.queues[id].consumer.item.ev])
  {
    hide Core;
    ConsumersEvent(c, id);
    if Enters(c, s, id) { StartIsCurrent(c, s.s.ev, id); }
  }

  lemma ConsumersEvent(c: Cell, id: QueueId)
    requires Core(c) && id in c.queues && c.queues[id].consumer.Dispatching?
    ensures var ev := c.queues[id].consumer.item.ev; ev in c.pool.tasks && ev in Events(c.queues[id].accepted)
  {
    assert Linked(c.pool.tasks, c.queues[id]);
    Mentioned(c.queues[id]);
  }

  /** Which steps move a consumer, and where to. */
  lemma ConsumerAfter(c: Cell, s: CellStep, id: QueueId)
    requires CanStep(c, s) && id in c.queues
    ensures id in NextQueues(c, s)
    ensures c.queues[id].consumer.Dispatching? ==>
              NextQueues(c, s)[id].consumer ==
                (if s == SettleDone(id) || s == SettleRefused(id) then Receiving else c.queues[id].consumer)
    ensures !c.queues[id].consumer.Dispatching? && NextQueues(c, s)[id].consumer.Dispatching? ==>
              s == CheckItem(id) && !c.queues[id].aborted
                && NextQueues(c, s)[id].consumer.item == c.queues[id].consumer.item
  {}

  lemma KeepsInOrder(c: Cell, s: CellStep, id: QueueId)
    requires Core(c) && CanStep(c, s) && id in c.queues && InOrder(c.pool, c.queues[id])
    ensures InOrder(NextPool(c, s), NextQueues(c, s)[id])
  {
    hide Core, CanStep, NextPool, NextQueues;
    StartsOfAfter(c, s, id);
    CurrentAfter(c, s, id);
    HandledAfter(c, s, id);
    var q, r := c.queues[id], NextQueues(c, s)[id];
    Glue(StartsOf(c.pool, q), StartsOf(NextPool(c, s), r), HandledItems(q.settled), HandledItems(r.settled),
         Current(c.pool, q), Current(NextPool(c, s), r), Entered(c, s, id), Done(c, s, id));
  }

  /** Entering Handle extends the current part; settling moves it to the handled part. */
  lemma Glue(starts: seq<EventId>, starts': seq<EventId>, handled: seq<Item>, handled': seq<Item>,
             cur: seq<EventId>, cur': seq<EventId>, entered: seq<EventId>, done: seq<Item>)
    requires starts == EventsOf(handled) + cur
    requires starts' == starts + entered && handled' == handled + done
    requires done == [] ==> cur' == cur + entered
    requires done != [] ==> entered == [] && cur == EventsOf(done) && cur' == []
    ensures starts' == EventsOf(handled') + cur'
  {
    assert EventsOf(handled + done) == EventsOf(handled) + EventsOf(done);
  }

  /** A consumer gets into the may-start state only through an aborted check that said no. */
  lemma MayStartAfter(c: Cell, s: CellStep, id: QueueId)
    requires Core(c) && CanStep(c, s) && id in c.queues
    ensures
      MayStart(NextPool(c, s), NextQueues(c, s)[id]) ==>
        || (MayStart(c.pool, c.queues[id]) && !Enters(c, s, id))
        || (s.CheckItem? && s.q == id && !c.queues[id].aborted)
  {
    ConsumerAfter(c, s, id);
    if c.queues[id].consumer.Dispatching? {
      EnteredIsCurrent(c, s, id);
      StartedAfter(c, s, c.queues[id].consumer.item.ev);
      hide Core, CanStep, NextPool, NextQueues;
    }
  }

  /** An aborted queue commits to no new Handle entry. */
  lemma BudgetFalls(c: Cell, s: CellStep, id: QueueId)
    requires Core(c) && CanStep(c, s) && id in c.queues && c.queues[id].aborted
    ensures id in NextQueues(c, s) && NextQueues(c, s)[id].aborted
    ensures Budget(NextPool(c, s), NextQueues(c, s)[id]) <= Budget(c.pool, c.queues[id])
  {
    StaysAborted(c, s, id);
    hide Core, NextPool, NextQueues;
    StartsOfAfter(c, s, id);
    MayStartAfter(c, s, id);
    if Enters(c, s, id) { StartIsCurrent(c, s.s.ev, id); }
  }

  lemma StaysAborted(c: Cell, s: CellStep, id: QueueId)
    requires CanStep(c, s) && id in c.queues && c.queues[id].aborted
    ensures id in NextQueues(c, s) && NextQueues(c, s)[id].aborted
  {}

  /** A new queue has no history. */
  lemma NewQueueOrder(c: Cell, s: CellStep, id: QueueId)
    requires CanStep(c, s) && id !in c.queues && id in NextQueues(c, s)
    ensures InOrder(NextPool(c, s), NextQueues(c, s)[id])
  {
    assert Events(NextQueues(c, s)[id].accepted) == {};
    OnlyNone(NextPool(c, s).starts);
  }

  lemma {:induction false} OnlyNone(log: seq<EventId>)
    ensures Only(log, {}) == []
    decreases |log|
  {
    if log != [] { OnlyNone(log[..|log| - 1]); }
  }

  lemma KeepsOrder(c: Cell, s: CellStep)
    requires Core(c) && OrderInv(c) && CanStep(c, s)
    ensures OrderInv(After(c, s))
  {
    hide Core, CanStep, NextPool, NextQueues;
    forall id <- NextQueues(c, s).Keys ensures InOrder(NextPool(c, s), NextQueues(c, s)[id]) {
      if id in c.queues { KeepsInOrder(c, s, id); } else { NewQueueOrder(c, s, id); }
    }
  }
}
