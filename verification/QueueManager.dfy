/** The registry of live queues as its code keeps it. */
module QueueManagers {
  import opened Sequences
  import opened PoolModel
  import opened QueueModel
  import opened EventQueues
  import Registry

  type QueueName = Registry.QueueName

  class QueueManager {
    var queues: map<QueueName, EventQueue>
    var released: set<QueueName>

    /** The registry as a value. */
    ghost function View(): Registry.Registry<EventQueue>
      reads this
    {
      Registry.Registry(queues, released)
    }

    /** No queue object is listed under two IDs, and each is well-formed. */
    ghost predicate Valid()
      reads this, queues.Values
    {
      && (forall a <- queues.Keys, b <- queues.Keys :: a != b ==> queues[a] != queues[b])
      && forall id <- queues.Keys :: queues[id].Valid()
    }

    constructor ()
      ensures Valid() && View() == Registry.Fresh<EventQueue>()
    {
      queues, released := map[], {};
    }

    method Create(prefix: string, id: QueueName, queueSize: nat) returns (listed: bool)
      requires Valid()
      modifies this
      ensures Valid() && listed == Registry.Exists(old(View()), id)
      ensures listed ==> View() == old(View())
      ensures !listed ==>
        id in queues && fresh(queues[id]) && queues[id].Model() == NewQueue(queueSize) && queues[id].prefix == prefix
      ensures !listed ==> View() == Registry.After(old(View()), Registry.Create(id, queues[id]))
    {
      if id in queues {
        return true;
      }
      var q := new EventQueue(prefix, queueSize);
      queues := queues[id := q];
      return false;
    }

    method Find(id: QueueName) returns (found: Registry.Found<EventQueue>)
      ensures found == Registry.Get(View(), id)
    {
      if id !in queues {
        if id in released {
          return Registry.AlreadyReleased;
        }
        return Registry.NotFound;
      }
      return Registry.Queue(queues[id]);
    }

    /** Takes a live queue out of the registry, then releases or aborts it; anything else is left alone. */
    method Retire(id: QueueName, abort: bool)
      requires Valid()
      modifies this, queues.Values
      ensures Valid()
        && View() == Registry.After(old(View()), if abort then Registry.AbortOne(id) else Registry.Release(id))
      ensures forall name <- old(queues.Keys) ::
        var q := old(queues[name]);
        q.Valid() && q.Model() == if name != id then old(q.Model())
                                  else if abort then QueueModel.Abort(old(q.Model()))
                                  else QueueModel.Release(old(q.Model()))
    {
      if id !in queues {
        return;
      }
      var q := queues[id];
      queues := queues - {id};
      released := released + {id};
      if abort {
        q.Abort();
      } else {
        q.Release();
      }
    }

    /** The objects listed, in some order. */
    method Listed() returns (list: seq<EventQueue>)
      requires Valid()
      ensures forall q: EventQueue :: q in list <==> q in queues.Values
      ensures NoRepeats(list)
    {
      list := [];
      var ids := queues.Keys;
      while ids != {}
        invariant ids <= queues.Keys
        invariant forall q: EventQueue :: q in list <==> exists id <- queues.Keys - ids :: queues[id] == q
        invariant NoRepeats(list)
      {
        var id :| id in ids;
        assert queues[id] !in list;
        list := list + [queues[id]];
        ids := ids - {id};
      }
    }

    /**
     * Aborts every listed queue, then waits for every consumer to leave. Afterwards the registry lists nothing, no
     * taken queue has anything left to handle, and only what was already inside dispatch has been handled.
     */
    method AbortAll(refuse: set<EventId>)
      requires Valid()
      modifies this, queues.Values
      ensures Valid() && View() == Registry.After(old(View()), Registry.AbortAll)
      ensures forall q: EventQueue :: q in old(queues.Values) ==>
        q.Valid() && Joined(q, old(q.Model()), refuse)
    {
      hide QueueModel.Abort, QueueInv, Outlook;
      var taken := Listed();
      ghost var was := map q: EventQueue | q in queues.Values :: q.Model();
      assert forall j :: 0 <= j < |taken| ==> taken[j] in taken;
      released := released + queues.Keys;
      queues := map[];
      AbortEach(taken, was);
      JoinEach(taken, was, refuse);
    }
  }

  method AbortEach(taken: seq<EventQueue>, ghost was: map<EventQueue, Queue>)
    requires NoRepeats(taken)
    requires forall j :: 0 <= j < |taken| ==> taken[j] in was && taken[j].Valid() && taken[j].Model() == was[taken[j]]
    modifies taken
    ensures forall j :: 0 <= j < |taken| ==> taken[j].Valid() && taken[j].Model() == QueueModel.Abort(was[taken[j]])
  {
    hide QueueModel.Abort, QueueInv;
    for i := 0 to |taken|
      invariant forall j :: 0 <= j < |taken| ==> taken[j].Valid()
      invariant forall j :: 0 <= j < |taken| ==>
        taken[j].Model() == if j < i then QueueModel.Abort(was[taken[j]]) else was[taken[j]]
    {
      hide QueueModel.Abort, QueueInv;
      taken[i].Abort();
    }
  }

  method JoinEach(taken: seq<EventQueue>, ghost was: map<EventQueue, Queue>, refuse: set<EventId>)
    requires NoRepeats(taken)
    requires forall j ::
      0 <= j < |taken| ==> taken[j] in was && taken[j].Valid() && taken[j].Model() == QueueModel.Abort(was[taken[j]])
    modifies taken
    ensures forall j :: 0 <= j < |taken| ==> taken[j].Valid() && Joined(taken[j], was[taken[j]], refuse)
  {
    hide QueueModel.Abort, QueueInv, Outlook;
    for i := 0 to |taken|
      invariant forall j :: 0 <= j < |taken| ==> taken[j].Valid()
      invariant forall j :: i <= j < |taken| ==> taken[j].Model() == QueueModel.Abort(was[taken[j]])
      invariant forall j :: 0 <= j < i ==> Joined(taken[j], was[taken[j]], refuse)
    {
      hide QueueModel.Abort, QueueInv, Outlook;
      AbortKeeps(was[taken[i]]);
      taken[i].Join(refuse);
    }
  }

  /** An aborted queue whose consumer has left, compared with the state in which abortAll found it. */
  ghost predicate Joined(q: EventQueue, was: Queue, refuse: set<EventId>)
    reads q
  {
    && q.aborted && q.consumer.Exited? && q.ch == []
    && q.settled == Outlook(QueueModel.Abort(was), refuse) && Items(q.settled) == was.accepted
  }

  lemma AbortKeeps(q: Queue)
    ensures QueueModel.Abort(q).aborted && QueueModel.Abort(q).accepted == q.accepted
    ensures QueueInv(QueueModel.Abort(q)) ==> QueueModel.Abort(q).released
  {}
}
