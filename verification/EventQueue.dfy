/** The event queue as its code keeps it: fields changed under a mutex, and a consumer loop. */
module EventQueues {
  import opened PoolModel
  import opened QueueModel

  class EventQueue {
    const prefix: string
    const cap: nat
    var ch: seq<Item>
    var closed: bool
    var released: bool
    var aborted: bool
    var consumer: Consumer
    var accepted: seq<Item>
    var settled: seq<Settled>
    var faults: nat

    ghost function Model(): Queue
      reads this
    {
      Queue(cap, ch, closed, released, aborted, consumer, accepted, settled, faults)
    }

    ghost predicate Valid()
      reads this
    {
      QueueInv(Model())
    }

    constructor (prefix: string, queueSize: nat)
      ensures Valid() && Model() == NewQueue(queueSize) && this.prefix == prefix
    {
      this.prefix, cap := prefix, queueSize;
      ch, closed, released, aborted, consumer := [], false, false, false, Receiving;
      accepted, settled, faults := [], [], 0;
      new;
      BirthAndExitInv(Model(), queueSize);
    }

    /** A receiver is blocked on an unbuffered channel, or the buffer has space. */
    predicate Ready()
      reads this
    {
      |ch| < cap || (cap == 0 && ch == [] && consumer.Receiving?)
    }

    method Enqueue(item: Item) returns (reply: Reply)
      requires Valid()
      modifies this
      ensures Valid() && (Model(), reply) == QueueModel.Enqueue(old(Model()), item)
      ensures old(released) <==> reply == QueueReleased
      ensures !old(released) && cap > 0 ==> reply == if |old(ch)| < cap then Accepted else QueueFull
      ensures !old(released) && cap == 0 ==>
        reply == if old(ch) == [] && old(consumer).Receiving? then Accepted else QueueFull
      ensures accepted == if reply.Accepted? then old(accepted) + [item] else old(accepted)
    {
      EnqueueKeepsInv(Model(), item);
      if released || aborted {
        return QueueReleased;
      }
      if closed || Ready() {
        Send(item);
        return Accepted;
      }
      return QueueFull;
    }

    /** The send on q.ch, ready to go ahead: on a closed channel it would be a panic. */
    method Send(item: Item)
      modifies this
      ensures Model() == QueueModel.Send(old(Model()), item)
    {
      if closed {
        faults := faults + 1;
      } else {
        ch := ch + [item];
        accepted := accepted + [item];
      }
    }

    method Release()
      requires Valid()
      modifies this
      ensures Valid() && Model() == QueueModel.Release(old(Model())) && closed && faults == 0
    {
      CloseKeepsInv(Model());
      if released || aborted {
        return;
      }
      released := true;
      Close();
    }

    /** close(q.ch): closing twice would be a panic. */
    method Close()
      modifies this
      ensures Model() == CloseChannel(old(Model()))
    {
      if closed {
        faults := faults + 1;
      } else {
        closed := true;
      }
    }

    method Abort()
      requires Valid()
      modifies this
      ensures Valid() && Model() == QueueModel.Abort(old(Model())) && closed && aborted && faults == 0
      ensures consumer == old(consumer) && ch == old(ch) && settled == old(settled)
    {
      CloseKeepsInv(Model());
      if aborted {
        return;
      }
      var wasReleased := released;
      aborted := true;
      released := true;
      if !wasReleased {
        Close();
      }
    }

    /** The consumer's receive: an item, or the end of a closed and empty channel, or it would block. */
    method Next() returns (blocked: bool)
      requires Valid() && consumer.Receiving?
      modifies this
      ensures Valid()
      ensures blocked <==> old(ch) == [] && !old(closed)
      ensures Model() ==
        if old(ch) != [] then Receive(old(Model())) else if old(closed) then Exit(old(Model())) else old(Model())
    {
      if ch != [] {
        ReceiveKeepsInv(Model());
        consumer := Received(ch[0]);
        ch := ch[1..];
        return false;
      }
      if !closed {
        return true;
      }
      BirthAndExitInv(Model(), cap);
      consumer := Exited;
      return false;
    }

    /** The consumer's look at the aborted flag. */
    method CheckAborted()
      requires Valid() && consumer.Received?
      modifies this
      ensures Valid() && Model() == Check(old(Model()))
    {
      CheckKeepsInv(Model());
      if aborted {
        settled := settled + [Settled(consumer.item, Discarded)];
        consumer := Receiving;
      } else {
        consumer := Dispatching(consumer.item);
      }
    }

    /** dispatch has returned an error, or the done channel it returned is closed. */
    method Finish(refused: bool)
      requires Valid() && consumer.Dispatching? && (refused ==> consumer.item.isCall)
      modifies this
      ensures Valid() && Model() == Settle(old(Model()), if refused then RefusedCall else Handled)
    {
      SettleKeepsInv(Model(), if refused then RefusedCall else Handled);
      settled := settled + [Settled(consumer.item, if refused then RefusedCall else Handled)];
      consumer := Receiving;
    }

    /**
     * The consumer loop of a released or aborted queue, left to itself from wherever it is. It always ends, with the
     * channel drained and every accepted item settled in its order: an item already given to dispatch runs to its
     * end, and those behind it are all discarded if the queue was aborted, and otherwise handled, except for the
     * Calls whose dispatch is refused.
     */
    method Join(refuse: set<EventId>)
      requires Valid() && released
      modifies this
      ensures Valid() && consumer.Exited? && ch == [] && released
      ensures accepted == old(accepted) == Items(settled) && aborted == old(aborted)
      ensures settled == Outlook(old(Model()), refuse)
    {
      while !consumer.Exited?
        invariant Valid() && released && accepted == old(accepted) && aborted == old(aborted)
        invariant Outlook(Model(), refuse) == Outlook(old(Model()), refuse)
        decreases |ch|, Ahead(consumer)
      {
        ghost var before := Model();
        OutlookStep(before, refuse);
        match consumer {
          case Receiving => var blocked := Next();
          case Received(_) => CheckAborted();
          case Dispatching(item) => Finish(item.isCall && item.ev in refuse);
        }
      }
    }
  }

  /** Steps the consumer has left before it looks at the channel again or leaves. */
  function Ahead(c: Consumer): nat {
    match c
    case Received(_) => 3
    case Dispatching(_) => 2
    case Receiving => 1
    case Exited => 0
  }

  /** What becomes of an item. */
  function Fate(item: Item, discard: bool, refuse: set<EventId>): Settled {
    Settled(item, if discard then Discarded else if item.isCall && item.ev in refuse then RefusedCall else Handled)
  }

  function Fates(items: seq<Item>, discard: bool, refuse: set<EventId>): (fates: seq<Settled>)
    ensures |fates| == |items|
  {
    seq(|items|, i requires 0 <= i < |items| => Fate(items[i], discard, refuse))
  }

  /** How a closed queue's items will have been settled in the end. */
  function Outlook(q: Queue, refuse: set<EventId>): seq<Settled> {
    q.settled + Fates(InFlight(q), q.aborted && q.consumer.Received?, refuse) + Fates(q.buf, q.aborted, refuse)
  }

  lemma OutlookStep(q: Queue, refuse: set<EventId>)
    ensures q.consumer.Receiving? && q.buf != [] ==> Outlook(Receive(q), refuse) == Outlook(q, refuse)
    ensures q.consumer.Receiving? && q.buf == [] ==> Outlook(Exit(q), refuse) == Outlook(q, refuse)
    ensures q.consumer.Received? ==> Outlook(Check(q), refuse) == Outlook(q, refuse)
    ensures q.consumer.Dispatching? ==>
      Outlook(Settle(q, Fate(q.consumer.item, false, refuse).outcome), refuse) == Outlook(q, refuse)
  {
    if q.consumer.Receiving? && q.buf != [] {
      assert Fates(q.buf, q.aborted, refuse) ==
        Fates([q.buf[0]], q.aborted, refuse) + Fates(q.buf[1..], q.aborted, refuse);
    }
  }

  /**
   * What is still to come for a closed queue. An aborted one handles nothing more except an item already inside
   * dispatch; a released one drops nothing, and skips only Calls whose dispatch is refused.
   */
  lemma OutlookFates(q: Queue, refuse: set<EventId>, k: nat)
    requires |q.settled| <= k < |Outlook(q, refuse)|
    ensures Outlook(q, refuse)[k].outcome.Discarded? <==> q.aborted && !(k == |q.settled| && q.consumer.Dispatching?)
    ensures Outlook(q, refuse)[k].outcome.RefusedCall? ==>
      Outlook(q, refuse)[k].item.isCall && Outlook(q, refuse)[k].item.ev in refuse
    ensures Items(Outlook(q, refuse)) == Items(q.settled) + InFlight(q) + q.buf
  {}
}
