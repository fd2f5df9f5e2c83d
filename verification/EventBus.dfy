/** Push, Call and QueueCreate: how an event is routed, through the lifecycle, the listeners and the queue registry. */
module EventBuses {
  import opened PoolModel
  import opened QueueModel
  import Strconv
  import Routing
  import Registry
  import Lifecycle
  import Listeners
  import WorkerPools
  import EventQueues
  import QueueManagers
  import Services
  import ListenerManagers
  import Subscribers
  import SubManagers

  /** What Push and Call come to, as far as they do not wait. */
  datatype Delivery =
    | ServiceDown
    | NoHandler
    | NoQueue(ev: EventId)
    | QueueGone(ev: EventId)
    | Queued(ev: EventId, reply: Reply)
    | Direct(ev: EventId)

  datatype Creation = CannotCreate | AlreadyExists | Created(id: string)

  class EventBus {
    const service: Services.Service
    const queues: QueueManagers.QueueManager
    const listeners: ListenerManagers.ListenerManager
    const subscribers: SubManagers.SubManager
    var counter: nat

    ghost predicate Valid()
      reads this, service, service.pools.Values, queues, queues.queues.Values, listeners, subscribers
    {
      && service.Valid() && queues.Valid() && listeners.Valid() && subscribers.Valid()
      && (forall call <- subscribers.active.Keys :: call <= counter)
      && forall p <- service.pools.Keys ::
        service.pools[p].Valid() && forall ev <- service.pools[p].routines.Keys :: ev <= counter
    }

    constructor ()
      ensures Valid() && fresh(service) && fresh(queues) && fresh(listeners) && fresh(subscribers) && counter == 0
      ensures service.View() == Lifecycle.EMPTY && queues.View() == Registry.Fresh<EventQueues.EventQueue>()
      ensures listeners.Model() == Listeners.EMPTY && subscribers.Model() == Subscribers.EMPTY
    {
      service := new Services.Service();
      queues := new QueueManagers.QueueManager();
      listeners := new ListenerManagers.ListenerManager();
      subscribers := new SubManagers.SubManager();
      counter := 0;
    }

    /** Registers a handler: while the service runs its prefix gets a new pool, and no other pool is touched. */
    method Register(prefix: string, entry: Lifecycle.Entry)
      requires Valid()
      modifies service
      ensures Valid()
      ensures service.View() ==
        Lifecycle.After(old(service.View()), Lifecycle.Register(prefix, entry), old(service.now))
      ensures if service.started then
                service.IsNew(prefix) && service.pools == old(service.pools)[prefix := service.pools[prefix]]
              else service.pools == old(service.pools)
    {
      hide PoolModel.Inv, QueueInv, Listeners.Inv, EventQueues.EventQueue.Valid, QueueManagers.QueueManager.Valid,
        Services.Service.Valid, Subscribers.Known, Lifecycle.After, WorkerPools.WorkerPool.Valid,
        WorkerPools.WorkerPool.Model, ListenerManagers.ListenerManager.Valid, SubManagers.SubManager.Valid;
      service.Register(prefix, entry);
    }

    /** Start: a new pool for every registration, and a channel and a consumer for every listener. */
    method Start() returns (already: bool)
      requires Valid() && listeners.active == map[]
      requires !service.started ==> !listeners.started && listeners.stopper.Idle?
      modifies service, listeners
      ensures Valid() && already == old(service.started)
      ensures service.View() == Lifecycle.After(old(service.View()), Lifecycle.Start, old(service.now))
      ensures if already then service.pools == old(service.pools)
              else service.pools.Keys == service.handlers.Keys && forall p <- service.pools.Keys :: service.IsNew(p)
      ensures listeners.Model() ==
        if already then old(listeners.Model()) else Listeners.Next(old(listeners.Model()), Listeners.StartAll)
    {
      hide PoolModel.Inv, QueueInv, Listeners.Inv, EventQueues.EventQueue.Valid, QueueManagers.QueueManager.Valid,
        Services.Service.Valid, Subscribers.Known, Listeners.Next, Lifecycle.After, WorkerPools.WorkerPool.Valid,
        WorkerPools.WorkerPool.Model, SubManagers.SubManager.Valid;
      already := service.Start();
      if !already {
        listeners.Start();
      }
    }

    /** What the queue branch does: the registry's answer, or the named queue's, and nothing to any other queue. */
    twostate predicate Enqueued(name: string, item: Item, d: Delivery)
      reads this, queues, queues.queues.Values
    {
      && queues.queues == old(queues.queues) && queues.released == old(queues.released)
      && (if name in queues.queues then
            d.Queued? && d.ev == item.ev
            && (queues.queues[name].Model(), d.reply) == QueueModel.Enqueue(old(queues.queues[name].Model()), item)
          else d == (if name in queues.released then QueueGone(item.ev) else NoQueue(item.ev)))
      && forall other <- queues.queues.Keys ::
        other != name ==> queues.queues[other].Model() == old(queues.queues[other].Model())
    }

    method ToQueue(name: string, item: Item) returns (d: Delivery)
      requires Valid()
      modifies queues.queues.Values
      ensures Valid() && Enqueued(name, item, d)
    {
      hide QueueModel.Enqueue, QueueInv, HasRoom, PoolModel.Inv, Listeners.Inv;
      var found := queues.Find(name);
      match found {
        case NotFound =>
          d := NoQueue(item.ev);
        case AlreadyReleased =>
          d := QueueGone(item.ev);
        case Queue(q) =>
          var reply := q.Enqueue(item);
          d := Queued(item.ev, reply);
      }
    }

    /** What direct dispatch does: the pool of the prefix gets the event, and no other pool changes. */
    twostate predicate Dispatched(prefix: string, s: PoolModel.Step)
      reads this, service, service.pools.Values
    {
      && service.pools == old(service.pools) && prefix in service.pools
      && service.pools[prefix].Moved(old(service.pools[prefix].Model()), s)
      && forall p <- service.pools.Keys ::
        service.pools[p] != service.pools[prefix] ==> service.pools[p].Model() == old(service.pools[p].Model())
    }

    method ToPool(prefix: string, ev: EventId, isCall: bool, cancellable: bool, resp: ChanId, work: nat)
      requires Valid() && prefix in service.pools && ev == counter && ev !in service.pools[prefix].routines
      modifies service.pools[prefix]
      ensures Valid() && Dispatched(prefix, PoolModel.Dispatch(ev, isCall, cancellable, resp, work))
    {
      hide PoolModel.Inv, Apply, Enabled, QueueInv, Listeners.Inv, WorkerPools.WorkerPool.Valid,
        EventQueues.EventQueue.Valid, ListenerManagers.ListenerManager.Valid, Lifecycle.PoolsMatch, Services.Fit,
        Services.MadeFor;
      var pool := service.pools[prefix];
      pool.Dispatch(ev, isCall, cancellable, resp, work);
    }

    /** The event has its ID, has been offered to the listeners, and has reached the subscribers that can take it. */
    twostate predicate Announced(ev: EventId, typ: string, full: set<ChanId>, reached: set<Subscribers.SubId>)
      reads this, listeners, subscribers
    {
      && counter == old(counter) + 1 && ev == counter
      && Told(old(listeners.Model()), listeners.Model(), Listeners.Event(counter, typ))
      && subscribers.entries == old(subscribers.entries) && subscribers.closes == old(subscribers.closes)
      && forall id :: id in reached <==>
        && id in subscribers.entries && Subscribers.Wants(subscribers.entries[id], Listeners.Event(counter, typ))
        && subscribers.Reachable(subscribers.entries[id], full)
    }

    /** The ID, and the calls of notify on both managers. */
    method Announce(typ: string, full: set<ChanId>) returns (ev: EventId, reached: set<Subscribers.SubId>)
      requires Valid()
      modifies this, listeners, subscribers
      ensures Valid() && Announced(ev, typ, full, reached)
      ensures forall p <- service.pools.Keys :: ev !in service.pools[p].routines
    {
      hide PoolModel.Inv, QueueInv, Listeners.Inv, Listeners.OfferTo, Subscribers.Known, Subscribers.Wants,
        Services.Service.Valid, EventQueues.EventQueue.Valid, QueueManagers.QueueManager.Valid,
        WorkerPools.WorkerPool.Valid;
      counter := counter + 1;
      ev := counter;
      ghost var run := listeners.Notify(Listeners.Event(counter, typ));
      ghost var steps;
      reached, steps := subscribers.Notify(ev, Listeners.Event(counter, typ), full);
    }

    twostate predicate QueuesSame()
      reads this, queues, queues.queues.Values
    {
      && queues.queues == old(queues.queues) && queues.released == old(queues.released)
      && forall name <- queues.queues.Keys :: queues.queues[name].Model() == old(queues.queues[name].Model())
    }

    twostate predicate PoolsSame()
      reads this, service, service.pools.Values
    {
      service.pools == old(service.pools) && forall p <- service.pools.Keys ::
        service.pools[p].Model() == old(service.pools[p].Model())
    }

    /** Whether getHandler finds a handler for event type `typ`. */
    ghost predicate Routable(typ: string)
      reads this, service
    {
      service.started && Routing.PrefixOf(typ) in service.handlers
    }

    /**
     * What Push and Call do. The prefix picks the handler; every event that has one gets an ID of its own and is
     * announced to listeners and subscribers, whether or not it goes any further. With a queue name the event goes to
     * that queue and to no pool, without one to the handler's pool and to no queue.
     */
    twostate predicate Delivered(typ: string, queue: string, item: Item, cancellable: bool, d: Delivery,
                                 full: set<ChanId>, reached: set<Subscribers.SubId>)
      reads this, listeners, subscribers, service, service.pools.Values, queues, queues.queues.Values
    {
      if !Routable(typ) then
        d == (if service.started then NoHandler else ServiceDown) && reached == {} && Untouched()
      else if queue != "" then
        ByQueue(typ, queue, item, d, full, reached)
      else
        d == Direct(item.ev) && ByPool(Routing.PrefixOf(typ), typ, item, cancellable, full, reached)
    }

    method Deliver(typ: string, queue: string, isCall: bool, cancellable: bool, resp: ChanId, work: nat,
      full: set<ChanId>)
      returns (d: Delivery, reached: set<Subscribers.SubId>)
      requires Valid()
      modifies this, listeners, subscribers, queues.queues.Values, service.pools.Values
      ensures Valid()
        && Delivered(typ, queue, Item(old(counter) + 1, isCall, resp, work), cancellable, d, full, reached)
    {
      hide Routing.PrefixOf, Lifecycle.GetHandler, Services.Service.View, Services.MadeFor, Services.Service.Valid,
        EventQueues.EventQueue.Model, WorkerPools.WorkerPool.Model, ListenerManagers.ListenerManager.Model,
        EventQueues.EventQueue.Valid, WorkerPools.WorkerPool.Valid, ListenerManagers.ListenerManager.Valid,
        QueueManagers.QueueManager.Valid, SubManagers.SubManager.Valid, SubManagers.SubManager.Model, ByQueue, ByPool;
      var found := service.GetHandler(Routing.PrefixOf(typ));
      reached := {};
      match found {
        case ServiceDown =>
          d := ServiceDown;
        case NotRegistered =>
          d := NoHandler;
        case Ready(entry, pool) =>
          if queue != "" {
            d, reached := DeliverToQueue(typ, queue, isCall, resp, work, full);
          } else {
            reached := DeliverToPool(Routing.PrefixOf(typ), typ, isCall, cancellable, resp, work, full);
            d := Direct(counter);
          }
      }
    }

    /** An event without a handler leaves no trace. */
    twostate predicate Untouched()
      reads this, listeners, subscribers, service, service.pools.Values, queues, queues.queues.Values
    {
      && counter == old(counter) && listeners.Model() == old(listeners.Model())
      && subscribers.Model() == old(subscribers.Model()) && PoolsSame() && QueuesSame()
    }

    twostate predicate ByQueue(typ: string, queue: string, item: Item, d: Delivery, full: set<ChanId>,
      reached: set<Subscribers.SubId>)
      reads this, listeners, subscribers, service, service.pools.Values, queues, queues.queues.Values
    {
      Announced(item.ev, typ, full, reached) && Enqueued(queue, item, d) && PoolsSame()
    }

    twostate predicate ByPool(prefix: string, typ: string, item: Item, cancellable: bool, full: set<ChanId>,
      reached: set<Subscribers.SubId>)
      reads this, listeners, subscribers, service, service.pools.Values, queues, queues.queues.Values
    {
      && Announced(item.ev, typ, full, reached) && QueuesSame()
      && Dispatched(prefix, PoolModel.Dispatch(item.ev, item.isCall, cancellable, item.resp, item.work))
    }

    method DeliverToQueue(typ: string, queue: string, isCall: bool, resp: ChanId, work: nat, full: set<ChanId>)
      returns (d: Delivery, reached: set<Subscribers.SubId>)
      requires Valid()
      modifies this, listeners, subscribers, queues.queues.Values
      ensures Valid() && ByQueue(typ, queue, Item(old(counter) + 1, isCall, resp, work), d, full, reached)
    {
      hide EventQueues.EventQueue.Model, EventQueues.EventQueue.Valid, WorkerPools.WorkerPool.Model,
        WorkerPools.WorkerPool.Valid, ListenerManagers.ListenerManager.Model, ListenerManagers.ListenerManager.Valid,
        QueueManagers.QueueManager.Valid, Services.Service.Valid, QueueModel.Enqueue, Told, Subscribers.Known,
        Subscribers.Wants;
      var ev;
      ev, reached := Announce(typ, full);
      d := ToQueue(queue, Item(ev, isCall, resp, work));
    }

    method DeliverToPool(prefix: string, typ: string, isCall: bool, cancellable: bool, resp: ChanId, work: nat,
      full: set<ChanId>)
      returns (reached: set<Subscribers.SubId>)
      requires Valid() && prefix in service.pools
      modifies this, listeners, subscribers, service.pools.Values
      ensures Valid() && ByPool(prefix, typ, Item(old(counter) + 1, isCall, resp, work), cancellable, full, reached)
      ensures counter == old(counter) + 1
    {
      hide EventQueues.EventQueue.Model, EventQueues.EventQueue.Valid, WorkerPools.WorkerPool.Model,
        WorkerPools.WorkerPool.Valid, WorkerPools.WorkerPool.Moved, ListenerManagers.ListenerManager.Model,
        ListenerManagers.ListenerManager.Valid, QueueManagers.QueueManager.Valid, Services.Service.Valid, Told,
        Subscribers.Known, Subscribers.Wants, Routing.PrefixOf;
      var ev;
      ev, reached := Announce(typ, full);
      ToPool(prefix, ev, isCall, cancellable, resp, work);
    }

    /** A new queue for a registered prefix, under the given ID or a generated one, with the capacity it registered. */
    method QueueCreate(prefix: string, id: string) returns (c: Creation)
      requires Valid()
      modifies this, queues
      ensures Valid()
      ensures c.CannotCreate? <==>
        Lifecycle.GetHandler(service.View(), prefix).NotStarted?
        || Lifecycle.GetHandler(service.View(), prefix).NoHandler?
      ensures c.CannotCreate? || c.AlreadyExists? ==> queues.View() == old(queues.View())
      ensures counter == if c.CannotCreate? || id != "" then old(counter) else old(counter) + 1
      ensures var name := if id != "" then id else "q-" + prefix + "-" + Strconv.Decimal(old(counter) + 1);
        && (c.AlreadyExists? <==> !c.CannotCreate? && name in old(queues.queues))
        && (c.Created? ==> c.id == name)
      ensures c.Created? ==>
        && !Registry.Exists(old(queues.View()), c.id)
        && c.id in queues.queues
        && queues.View() == Registry.After(old(queues.View()), Registry.Create(c.id, queues.queues[c.id]))
        && prefix in service.handlers && queues.queues[c.id].Model() == NewQueue(service.handlers[prefix].queueSize)
        && queues.queues[c.id].prefix == prefix
    {
      hide PoolModel.Inv, QueueInv, Listeners.Inv, WorkerPools.WorkerPool.Model, WorkerPools.WorkerPool.Valid,
        EventQueues.EventQueue.Valid, ListenerManagers.ListenerManager.Valid, Lifecycle.PoolsMatch, Services.Fit,
        Services.MadeFor;
      var found := service.GetHandler(prefix);
      if !found.Ready? {
        return CannotCreate;
      }
      var queueId := id;
      if queueId == "" {
        counter := counter + 1;
        queueId := "q-" + prefix + "-" + Strconv.Decimal(counter);
      }
      var listed := queues.Create(prefix, queueId, found.entry.queueSize);
      return if listed then AlreadyExists else Created(queueId);
    }
  }

  /**
   * Generated queue IDs never clash with each other: the counter is part of them. So a generated ID is taken only if a
   * caller has chosen it before.
   */
  lemma GeneratedIdsDiffer(p: string, m: nat, q: string, n: nat)
    ensures "q-" + p + "-" + Strconv.Decimal(m) == "q-" + q + "-" + Strconv.Decimal(n) <==> p == q && m == n
  {
    var a, b := "q-" + p + "-", "q-" + q + "-";
    var d, e := Strconv.Decimal(m), Strconv.Decimal(n);
    Strconv.DigitsOfDecimal(m);
    Strconv.DigitsOfDecimal(n);
    hide Strconv.Decimal, Strconv.Digits;
    if a + d == b + e {
      LastDash(a, d, b, e);
      assert a[2..|a| - 1] == p && b[2..|b| - 1] == q;
    }
  }

  /** Two texts that end in a dash and digits are equal only part by part. */
  lemma LastDash(a: string, d: string, b: string, e: string)
    requires a + d == b + e && a != "" && b != "" && a[|a| - 1] == '-' && b[|b| - 1] == '-'
    requires (forall c <- d :: Strconv.IsDigit(c)) && forall c <- e :: Strconv.IsDigit(c)
    ensures a == b && d == e
  {
    if |a| < |b| {
      DashInDigits(a, d, b, e);
      assert false;
    } else if |b| < |a| {
      DashInDigits(b, e, a, d);
      assert false;
    } else {
      assert a == (a + d)[..|a|] && b == (b + e)[..|b|] && d == (a + d)[|a|..] && e == (b + e)[|b|..];
    }
  }

  lemma DashInDigits(a: string, d: string, b: string, e: string)
    requires a + d == b + e && |a| < |b| && b[|b| - 1] == '-'
    ensures '-' in d
  {
    assert (a + d)[|b| - 1] == '-' && d[|b| - 1 - |a|] in d;
  }

  /** Every listener was offered `ev` once, in registration order, if the manager was started. */
  ghost predicate Told(m: Listeners.Manager, t: Listeners.Manager, ev: Listeners.Event) {
    if !m.started then t == m
    else |t.entries| == |m.entries| && forall j ::
      0 <= j < |m.entries| ==> t.entries[j] == Listeners.OfferTo(m.entries[j], |m.notes|, ev)
  }
}
