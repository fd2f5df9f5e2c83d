/** What a reply channel carries. */
module CellReplies {
  import opened Options
  import opened PoolModel
  import opened QueueModel
  import opened CellModel
  import opened CellSafety
  import opened CellOrder

  /** Every value is the owner's; the first one placed stays until the caller takes it, and is what it takes. */
  ghost predicate GoodChan(ch: Chan) {
    && (ch.buf.Some? ==> ch.buf.value.author == ch.owner)
    && (ch.first.Some? ==> ch.first.value.author == ch.owner)
    && (ch.first.None? ==> ch.buf.None? && ch.taken.None?)
    && (ch.first.Some? && ch.taken.None? ==> ch.buf == ch.first)
    && (ch.taken.Some? ==> ch.taken == ch.first && !ch.waiting)
  }

  /** A handler's value means its task entered Handle; a dispatch error means dispatch refused it. */
  ghost predicate Justified(tasks: map<EventId, Task>, v: Value) {
    && v.author in tasks
    && (if v.kind.DispatchError? then tasks[v.author].phase.Refused? else Started(tasks[v.author]))
  }

  ghost predicate SourceRight(tasks: map<EventId, Task>, ch: Chan) {
    ch.first.Some? ==> Justified(tasks, ch.first.value)
  }

  /** A queued Call that dispatch refused has the dispatch error as its answer. */
  ghost predicate RefusalsAnswered(c: Cell, q: Queue) {
    forall k :: 0 <= k < |q.settled| && q.settled[k].outcome.RefusedCall? ==> Answered(c, q.settled[k].item)
  }

  ghost predicate Answered(c: Cell, item: Item) {
    item.resp in c.chans && c.chans[item.resp].first == Some(Value(item.ev, DispatchError))
  }

  ghost predicate ReplyInv(c: Cell) {
    && (forall r <- c.chans.Keys :: GoodChan(c.chans[r]) && SourceRight(c.pool.tasks, c.chans[r]))
    && (forall id <- c.queues.Keys :: RefusalsAnswered(c, c.queues[id]))
  }

  lemma PlaceGood(ch: Chan, v: Value)
    requires GoodChan(ch) && v.author == ch.owner
    ensures GoodChan(TryPlace(ch, v))
    ensures TryPlace(ch, v).first == if ch.first.Some? then ch.first else Some(v)
  {}

  /** Whatever a step sends goes to its author's own channel, and is true of the author's task. */
  lemma SendsRight(c: Cell, s: CellStep)
    requires Core(c) && CanStep(c, s) && Sends(c, s).Some?
    ensures var Sending(chan, v) := Sends(c, s).value; c.chans[chan].owner == v.author && Justified(c.pool.tasks, v)
  {
    match s
    case InPool(ps) => assert TaskKnown(c, ps.ev, c.pool.tasks[ps.ev]);
    case Write(ev, payload) => assert TaskKnown(c, ev, c.pool.tasks[ev]);
    case SettleRefused(q) => ConsumersItemKnown(c, q);
    case _ =>
  }

  /** How a step changes one existing channel. */
  lemma ChanAfter(c: Cell, s: CellStep, r: ChanId)
    requires Core(c) && ReplyInv(c) && CanStep(c, s) && r in c.chans
    ensures r in NextChans(c, s) && GoodChan(NextChans(c, s)[r])
    ensures c.chans[r].first.Some? ==> NextChans(c, s)[r].first == c.chans[r].first
    ensures c.chans[r].first.None? && NextChans(c, s)[r].first.Some? ==>
      Justified(c.pool.tasks, NextChans(c, s)[r].first.value)
  {
    assert GoodChan(c.chans[r]);
    assert Sends(c, s).Some? && Sends(c, s).value.chan in c.chans ==> GoodChan(c.chans[Sends(c, s).value.chan]);
    hide Core, ReplyInv;
    if Sends(c, s).Some? {
      hide CanStep, Sends;
      SendsRight(c, s);
      PlaceGood(c.chans[Sends(c, s).value.chan], Sends(c, s).value.value);
    }
  }

  /** A justified value stays justified. */
  lemma JustifiedAfter(c: Cell, s: CellStep, v: Value)
    requires Core(c) && CanStep(c, s) && Justified(c.pool.tasks, v)
    ensures Justified(NextPool(c, s).tasks, v)
  {
    StartedAfter(c, s, v.author);
  }

  lemma ConsumersItemKnown(c: Cell, q: QueueId)
    requires Core(c) && q in c.queues && c.queues[q].consumer.Dispatching?
    ensures var item := c.queues[q].consumer.item; item.resp in c.chans && c.chans[item.resp].owner == item.ev
  {
    Mentioned(c.queues[q]);
    assert ItemKnown(c, q, |c.queues[q].settled|, c.queues[q].accepted[|c.queues[q].settled|]);
  }

  lemma KeepsChans(c: Cell, s: CellStep)
    requires Core(c) && ReplyInv(c) && CanStep(c, s)
    ensures forall r <- NextChans(c, s).Keys ::
      GoodChan(NextChans(c, s)[r]) && SourceRight(NextPool(c, s).tasks, NextChans(c, s)[r])
  {
    forall r <- NextChans(c, s).Keys
      ensures GoodChan(NextChans(c, s)[r]) && SourceRight(NextPool(c, s).tasks, NextChans(c, s)[r])
    {
      if r in c.chans {
        assert SourceRight(c.pool.tasks, c.chans[r]);
        ChanAfter(c, s, r);
        var first := NextChans(c, s)[r].first;
        if first.Some? { JustifiedAfter(c, s, first.value); }
      }
    }
  }

  /** A refusal after the step: one from before, or the one this step settles. */
  lemma RefusalOrigin(c: Cell, s: CellStep, id: QueueId, k: nat)
    requires CanStep(c, s) && id in NextQueues(c, s) && k < |NextQueues(c, s)[id].settled|
    requires NextQueues(c, s)[id].settled[k].outcome.RefusedCall?
    ensures id in c.queues
    ensures || (k < |c.queues[id].settled| && NextQueues(c, s)[id].settled[k] == c.queues[id].settled[k])
            || (s == SettleRefused(id) && NextQueues(c, s)[id].settled[k].item == c.queues[id].consumer.item)
  {}

  lemma NewRefusalAnswered(c: Cell, id: QueueId)
    requires Core(c) && ReplyInv(c) && CanStep(c, SettleRefused(id))
    ensures Answered(After(c, SettleRefused(id)), c.queues[id].consumer.item)
  {
    var item := c.queues[id].consumer.item;
    ConsumersItemKnown(c, id);
    var ch := c.chans[item.resp];
    assert GoodChan(ch) && SourceRight(c.pool.tasks, ch);
    PlaceGood(ch, Value(item.ev, DispatchError));
  }

  lemma KeepsRefusals(c: Cell, s: CellStep, id: QueueId)
    requires Core(c) && ReplyInv(c) && CanStep(c, s) && id in NextQueues(c, s)
    ensures RefusalsAnswered(After(c, s), NextQueues(c, s)[id])
  {
    var after := NextQueues(c, s)[id].settled;
    forall k | 0 <= k < |after| && after[k].outcome.RefusedCall? ensures Answered(After(c, s), after[k].item) {
      RefusalOrigin(c, s, id, k);
      hide Core, CanStep, NextQueues, NextPool, NextChans;
      if s == SettleRefused(id) && after[k].item == c.queues[id].consumer.item {
        NewRefusalAnswered(c, id);
      } else {
        assert RefusalsAnswered(c, c.queues[id]);
        assert Answered(c, c.queues[id].settled[k].item);
        StaysAnswered(c, s, after[k].item);
      }
    }
  }

  lemma StaysAnswered(c: Cell, s: CellStep, item: Item)
    requires Core(c) && ReplyInv(c) && CanStep(c, s) && Answered(c, item)
    ensures Answered(After(c, s), item)
  {
    hide Core, CanStep, ReplyInv, NextChans, NextPool, NextQueues;
    ChanAfter(c, s, item.resp);
  }

  lemma KeepsReplies(c: Cell, s: CellStep)
    requires Core(c) && ReplyInv(c) && CanStep(c, s)
    ensures ReplyInv(After(c, s))
  {
    KeepsChans(c, s);
    forall id <- After(c, s).queues.Keys ensures RefusalsAnswered(After(c, s), After(c, s).queues[id]) {
      KeepsRefusals(c, s, id);
    }
  }
}
