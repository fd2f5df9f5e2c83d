/**
 * The queue registry against a machine per queue ID: Never -> Live -> Released -> Live. Q stands for whatever
 * identifies a queue object.
 */
module Registry {
  type QueueName = string

  datatype Registry<Q> = Registry(queues: map<QueueName, Q>, released: set<QueueName>)

  datatype Op<Q> =
    | Create(id: QueueName, made: Q)
    | Release(id: QueueName)
    | AbortOne(id: QueueName)
    | AbortAll
    | Lookup(id: QueueName)

  datatype Found<Q> = Queue(q: Q) | NotFound | AlreadyReleased

  function Fresh<Q>(): Registry<Q> { Registry(map[], {}) }

  /** The registry after `op`, each as the code does it. */
  function After<Q>(r: Registry<Q>, op: Op<Q>): Registry<Q> {
    match op
    case Create(id, q) => if id in r.queues then r else r.(queues := r.queues[id := q])
    case Release(id) => if id in r.queues then Registry(r.queues - {id}, r.released + {id}) else r
    case AbortOne(id) => if id in r.queues then Registry(r.queues - {id}, r.released + {id}) else r
    case AbortAll => Registry(map[], r.released + r.queues.Keys)
    case Lookup(_) => r
  }

  /** Create fails with ErrQueueExists. */
  predicate Exists<Q>(r: Registry<Q>, id: QueueName) { id in r.queues }

  function Get<Q>(r: Registry<Q>, id: QueueName): Found<Q> {
    if id in r.queues then Queue(r.queues[id]) else if id in r.released then AlreadyReleased else NotFound
  }

  function Run<Q>(history: seq<Op<Q>>): Registry<Q> {
    if history == [] then Fresh() else After(Run(history[..|history| - 1]), history[|history| - 1])
  }

  /** The operation would retire `id`. */
  predicate Retires<Q>(op: Op<Q>, id: QueueName) { op.AbortAll? || ((op.Release? || op.AbortOne?) && op.id == id) }

  predicate Creates<Q>(op: Op<Q>, id: QueueName) { op.Create? && op.id == id }

  ghost predicate EverCreated<Q>(history: seq<Op<Q>>, id: QueueName) {
    exists i :: 0 <= i < |history| && Creates(history[i], id)
  }

  /** Operation `i` creates `id` and nothing retires it from then on. */
  ghost predicate LiveSince<Q>(history: seq<Op<Q>>, id: QueueName, i: nat) {
    i < |history| && Creates(history[i], id) && forall j :: i < j < |history| ==> !Retires(history[j], id)
  }

  ghost predicate Live<Q>(history: seq<Op<Q>>, id: QueueName) { exists i: nat :: LiveSince(history, id, i) }

  /** The create that made the live queue object: the first of those that nothing has retired since. */
  ghost predicate MadeBy<Q>(history: seq<Op<Q>>, id: QueueName, i: nat) {
    LiveSince(history, id, i) && forall k: nat :: k < i ==> !LiveSince(history, id, k)
  }

  // ---------------------------------------------------------------- one more operation

  lemma EverCreatedStep<Q>(history: seq<Op<Q>>, op: Op<Q>, id: QueueName)
    ensures EverCreated(history + [op], id) <==> EverCreated(history, id) || Creates(op, id)
  {
    if EverCreated(history, id) {
      var i :| 0 <= i < |history| && Creates(history[i], id);
      assert (history + [op])[i] == history[i];
    }
    if Creates(op, id) { assert (history + [op])[|history|] == op; }
  }

  lemma LiveSinceStep<Q>(history: seq<Op<Q>>, op: Op<Q>, id: QueueName, i: nat)
    ensures LiveSince(history + [op], id, i) <==>
      if i < |history| then LiveSince(history, id, i) && !Retires(op, id) else i == |history| && Creates(op, id)
  {
    var longer := history + [op];
    assert longer[|history|] == op;
    if i < |history| {
      assert longer[i] == history[i];
      assert forall j :: i < j < |history| ==> longer[j] == history[j];
    }
  }

  lemma LiveStep<Q>(history: seq<Op<Q>>, op: Op<Q>, id: QueueName)
    ensures Live(history + [op], id) <==> (Live(history, id) && !Retires(op, id)) || Creates(op, id)
  {
    if Live(history + [op], id) {
      var i: nat :| LiveSince(history + [op], id, i);
      LiveSinceStep(history, op, id, i);
    }
    if Live(history, id) && !Retires(op, id) {
      var i: nat :| LiveSince(history, id, i);
      LiveSinceStep(history, op, id, i);
    }
    LiveSinceStep(history, op, id, |history|);
  }

  lemma MadeByStep<Q>(history: seq<Op<Q>>, op: Op<Q>, id: QueueName, i: nat)
    requires MadeBy(history, id, i) && !Retires(op, id)
    ensures MadeBy(history + [op], id, i)
  {
    forall k: nat | k <= i ensures LiveSince(history + [op], id, k) == LiveSince(history, id, k) {
      LiveSinceStep(history, op, id, k);
    }
  }

  // ---------------------------------------------------------------- refinement

  /** What the registry's two tables say about one ID, in terms of the history alone. */
  lemma {:induction false} TablesMatch<Q>(history: seq<Op<Q>>, id: QueueName)
    ensures id in Run(history).queues <==> Live(history, id)
    ensures id in Run(history).queues || id in Run(history).released <==> EverCreated(history, id)
    ensures id in Run(history).queues ==> exists i: nat ::
      MadeBy(history, id, i) && history[i].made == Run(history).queues[id]
    decreases |history|
  {
    if history != [] {
      var n := |history| - 1;
      var before, op := history[..n], history[n];
      assert history == before + [op];
      TablesMatch(before, id);
      EverCreatedStep(before, op, id);
      LiveStep(before, op, id);
      if id in Run(before).queues {
        var i: nat :| MadeBy(before, id, i) && before[i].made == Run(before).queues[id];
        if !Retires(op, id) {
          MadeByStep(before, op, id, i);
          assert history[i] == before[i];
        }
      } else if Creates(op, id) {
        FirstLive(before, op, id);
      }
    }
  }

  lemma FirstLive<Q>(history: seq<Op<Q>>, op: Op<Q>, id: QueueName)
    requires !Live(history, id) && Creates(op, id)
    ensures MadeBy(history + [op], id, |history|) && (history + [op])[|history|].made == op.made
  {
    LiveSinceStep(history, op, id, |history|);
    forall k: nat | k < |history| ensures !LiveSince(history + [op], id, k) {
      LiveSinceStep(history, op, id, k);
    }
  }

  /**
   * Refinement over every history. `get` reports NotFound exactly for an ID that was never created, Released exactly
   * for one that was created but is not live, and otherwise gives the object of the create the ID has been live
   * since; and the next create of an ID fails exactly when the ID is live.
   */
  lemma GetRefinesPerIdMachine<Q>(history: seq<Op<Q>>, id: QueueName)
    ensures Get(Run(history), id).NotFound? <==> !EverCreated(history, id)
    ensures Get(Run(history), id).AlreadyReleased? <==> EverCreated(history, id) && !Live(history, id)
    ensures Get(Run(history), id).Queue? <==> Live(history, id)
    ensures forall i: nat :: MadeBy(history, id, i) ==> Get(Run(history), id) == Queue(history[i].made)
    ensures Exists(Run(history), id) <==> Live(history, id)
  {
    TablesMatch(history, id);
    forall i: nat | MadeBy(history, id, i) ensures Get(Run(history), id) == Queue(history[i].made) {
      assert Live(history, id);
      var j: nat :| MadeBy(history, id, j) && history[j].made == Run(history).queues[id];
      assert i < j ==> !LiveSince(history, id, i);
      assert j < i ==> !LiveSince(history, id, j);
    }
  }

  datatype State = Never | IsLive | WasReleased

  ghost function StateOf<Q>(history: seq<Op<Q>>, id: QueueName): State {
    if Live(history, id) then IsLive else if EverCreated(history, id) then WasReleased else Never
  }

  /** The machine each ID follows: an operation moves it only along Never -> Live -> Released -> Live. */
  lemma PerIdMachine<Q>(history: seq<Op<Q>>, op: Op<Q>, id: QueueName)
    ensures StateOf(history + [op], id) ==
      if Creates(op, id) then IsLive
      else if Retires(op, id) && StateOf(history, id).IsLive? then WasReleased
      else StateOf(history, id)
  {
    LiveStep(history, op, id);
    EverCreatedStep(history, op, id);
    TablesMatch(history, id);
  }
}
