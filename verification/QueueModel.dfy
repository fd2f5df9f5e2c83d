/**
 * One event queue: its channel, its two flags and its consumer, as functions of the whole queue state. Each
 * function is one critical section or one channel operation of the code.
 */
module QueueModel {
  import opened PoolModel

  /** An event waiting in a queue, with its reply channel and the length of its handler. */
  datatype Item = Item(ev: EventId, isCall: bool, resp: ChanId, work: nat)

  /** What became of an item the consumer is done with. */
  datatype Outcome = Handled | RefusedCall | Discarded

  datatype Settled = Settled(item: Item, outcome: Outcome)

  datatype Consumer =
    | Receiving                  // at the top of the range loop
    | Received(item: Item)       // took an item, has not looked at the aborted flag yet
    | Dispatching(item: Item)    // inside dispatch, or waiting for the done channel it returned
    | Exited                     // left the loop, q.done closed

  datatype Reply = Accepted | QueueFull | QueueReleased

  datatype Queue = Queue(
    cap: nat,
    buf: seq<Item>,              // the channel's buffer
    closed: bool,                // the channel is closed
    released: bool,
    aborted: bool,
    consumer: Consumer,
    accepted: seq<Item>,         // every item ever sent on the channel
    settled: seq<Settled>,       // every item the consumer is done with
    faults: nat                  // sends on, and second closes of, a closed channel: each would be a panic
  )

  function NewQueue(cap: nat): Queue {
    Queue(cap, [], false, false, false, Receiving, [], [], 0)
  }

  /** The non-blocking send would succeed: buffer space, or for an unbuffered channel a receiver at hand. */
  predicate HasRoom(q: Queue) {
    |q.buf| < q.cap || (q.cap == 0 && q.buf == [] && q.consumer.Receiving?)
  }

  /** The send in enqueue, a panic if the channel is closed. */
  function Send(q: Queue, item: Item): Queue {
    if q.closed then q.(faults := q.faults + 1)
    else q.(buf := q.buf + [item], accepted := q.accepted + [item])
  }

  /** The close in release and abort, a panic if the channel is closed. */
  function CloseChannel(q: Queue): Queue {
    if q.closed then q.(faults := q.faults + 1) else q.(closed := true)
  }

  function Enqueue(q: Queue, item: Item): (Queue, Reply) {
    if q.released || q.aborted then (q, QueueReleased)
    else if q.closed || HasRoom(q) then (Send(q, item), Accepted)
    else (q, QueueFull)
  }

  function Release(q: Queue): Queue {
    if q.released || q.aborted then q else CloseChannel(q.(released := true))
  }

  function Abort(q: Queue): Queue {
    if q.aborted then q
    else
      var flagged := q.(aborted := true, released := true);
      if q.released then flagged else CloseChannel(flagged)
  }

  function Receive(q: Queue): Queue
    requires q.consumer.Receiving? && q.buf != []
  {
    q.(consumer := Received(q.buf[0]), buf := q.buf[1..])
  }

  predicate CanExit(q: Queue) { q.consumer.Receiving? && q.closed && q.buf == [] }

  function Exit(q: Queue): Queue { q.(consumer := Exited) }

  /** The consumer is done with its item. */
  function Settle(q: Queue, outcome: Outcome): Queue
    requires q.consumer.Received? || q.consumer.Dispatching?
  {
    q.(consumer := Receiving, settled := q.settled + [Settled(q.consumer.item, outcome)])
  }

  /** The aborted check: discard the item or go on to dispatch it. */
  function Check(q: Queue): Queue
    requires q.consumer.Received?
  {
    if q.aborted then Settle(q, Discarded) else q.(consumer := Dispatching(q.consumer.item))
  }

  // ---------------------------------------------------------------- what every operation keeps

  function InFlight(q: Queue): seq<Item> {
    if q.consumer.Received? || q.consumer.Dispatching? then [q.consumer.item] else []
  }

  function Items(s: seq<Settled>): (items: seq<Item>)
    ensures |items| == |s|
    ensures forall i :: 0 <= i < |s| ==> items[i] == s[i].item
  {
    seq(|s|, i requires 0 <= i < |s| => s[i].item)
  }

  ghost predicate QueueInv(q: Queue) {
    && q.closed == q.released
    && (q.aborted ==> q.released)
    && q.faults == 0
    && q.accepted == Items(q.settled) + InFlight(q) + q.buf
    && |q.buf| <= (if q.cap > 0 then q.cap else 1)
    && (q.consumer.Exited? ==> q.closed && q.buf == [])
    && (forall k :: 0 <= k < |q.settled| && q.settled[k].outcome.Discarded? ==> q.aborted)
    && (forall k :: 0 <= k < |q.settled| && q.settled[k].outcome.RefusedCall? ==> q.settled[k].item.isCall)
  }

  lemma EnqueueKeepsInv(q: Queue, item: Item)
    requires QueueInv(q)
    ensures QueueInv(Enqueue(q, item).0)
    ensures Enqueue(q, item).1.Accepted? <==> !q.closed && HasRoom(q)
    ensures Enqueue(q, item).0.accepted == if Enqueue(q, item).1.Accepted? then q.accepted + [item] else q.accepted
  {
    if Enqueue(q, item).1.Accepted? {
      assert q.accepted + [item] == Items(q.settled) + InFlight(q) + (q.buf + [item]);
    }
  }

  lemma CloseKeepsInv(q: Queue)
    requires QueueInv(q)
    ensures QueueInv(Release(q)) && Release(q).closed
    ensures QueueInv(Abort(q)) && Abort(q).closed && Abort(q).aborted
  {}

  lemma ReceiveKeepsInv(q: Queue)
    requires QueueInv(q) && q.consumer.Receiving? && q.buf != []
    ensures QueueInv(Receive(q)) && Receive(q).accepted == q.accepted
  {
    assert q.buf == [q.buf[0]] + q.buf[1..];
  }

  lemma SettleKeepsInv(q: Queue, outcome: Outcome)
    requires QueueInv(q) && (q.consumer.Received? || q.consumer.Dispatching?)
    requires outcome.Discarded? ==> q.aborted
    requires outcome.RefusedCall? ==> q.consumer.item.isCall
    ensures QueueInv(Settle(q, outcome))
  {
    var r := Settle(q, outcome);
    assert Items(r.settled) == Items(q.settled) + [q.consumer.item];
  }

  lemma CheckKeepsInv(q: Queue)
    requires QueueInv(q) && q.consumer.Received?
    ensures QueueInv(Check(q))
  {
    if q.aborted { SettleKeepsInv(q, Discarded); }
  }

  lemma BirthAndExitInv(q: Queue, cap: nat)
    ensures QueueInv(NewQueue(cap))
    ensures QueueInv(q) && CanExit(q) ==> QueueInv(Exit(q))
  {}

  // ---------------------------------------------------------------- order and conservation

  /** The items of `s` that ended with outcome Handled, in order. */
  function HandledItems(s: seq<Settled>): seq<Item> {
    if s == [] then []
    else HandledItems(s[..|s| - 1]) + (if s[|s| - 1].outcome.Handled? then [s[|s| - 1].item] else [])
  }

  /** The items of `s` whose event is not in `dropped`, in order. */
  function Without(s: seq<Item>, dropped: set<EventId>): seq<Item> {
    if s == [] then []
    else Without(s[..|s| - 1], dropped) + (if s[|s| - 1].ev in dropped then [] else [s[|s| - 1]])
  }

  ghost function Refusals(q: Queue): set<EventId> {
    set k | 0 <= k < |q.settled| && q.settled[k].outcome.RefusedCall? :: q.settled[k].item.ev
  }

  ghost predicate DistinctEvents(s: seq<Item>) {
    forall i, j :: 0 <= i < j < |s| ==> s[i].ev != s[j].ev
  }

  lemma {:induction false} WithoutAppend(a: seq<Item>, b: seq<Item>, dropped: set<EventId>)
    ensures Without(a + b, dropped) == Without(a, dropped) + Without(b, dropped)
    decreases |b|
  {
    if b == [] {
      assert a + b == a;
    } else {
      var last := |b| - 1;
      assert (a + b)[..|a + b| - 1] == a + b[..last];
      WithoutAppend(a, b[..last], dropped);
    }
  }

  lemma {:induction false} WithoutNothing(s: seq<Item>, dropped: set<EventId>)
    requires forall i :: 0 <= i < |s| ==> s[i].ev !in dropped
    ensures Without(s, dropped) == s
    decreases |s|
  {
    if s != [] {
      WithoutNothing(s[..|s| - 1], dropped);
      assert s == s[..|s| - 1] + [s[|s| - 1]];
    }
  }

  lemma {:induction false} WithoutRefused(s: seq<Settled>, dropped: set<EventId>)
    requires forall k :: 0 <= k < |s| ==> (s[k].item.ev in dropped <==> !s[k].outcome.Handled?)
    ensures Without(Items(s), dropped) == HandledItems(s)
    decreases |s|
  {
    if s != [] {
      var last := |s| - 1;
      assert Items(s)[..last] == Items(s[..last]);
      WithoutRefused(s[..last], dropped);
    }
  }

  /**
   * FIFO and conservation: unless the queue was aborted, handled ++ in flight ++ pending is the accepted sequence,
   * in its order, with nothing missing but Calls that dispatch refused.
   */
  lemma FifoConservation(q: Queue)
    requires QueueInv(q) && !q.aborted && DistinctEvents(q.accepted)
    ensures HandledItems(q.settled) + InFlight(q) + q.buf == Without(q.accepted, Refusals(q))
    ensures forall k :: 0 <= k < |q.settled| ==>
      q.settled[k].outcome.Handled? || (q.settled[k].outcome.RefusedCall? && q.settled[k].item.isCall)
  {
    var dropped := Refusals(q);
    var n := |q.settled|;
    forall i | 0 <= i < |q.accepted|
      ensures q.accepted[i].ev in dropped <==> i < n && q.settled[i].outcome.RefusedCall?
    {
      if q.accepted[i].ev in dropped {
        var k :| 0 <= k < n && q.settled[k].outcome.RefusedCall? && q.settled[k].item.ev == q.accepted[i].ev;
        assert q.accepted[k] == q.settled[k].item;
      } else if i < n {
        assert q.accepted[i] == q.settled[i].item;
      }
    }
    var rest := InFlight(q) + q.buf;
    assert q.accepted == Items(q.settled) + rest;
    forall k | 0 <= k < n ensures q.settled[k].item.ev in dropped <==> !q.settled[k].outcome.Handled? {
      assert q.accepted[k] == q.settled[k].item;
    }
    forall i | 0 <= i < |rest| ensures rest[i].ev !in dropped {
      assert rest[i] == q.accepted[n + i];
    }
    WithoutAppend(Items(q.settled), rest, dropped);
    WithoutRefused(q.settled, dropped);
    WithoutNothing(rest, dropped);
    assert HandledItems(q.settled) + InFlight(q) + q.buf == HandledItems(q.settled) + rest;
  }
}
