/** When a queue takes an event, in numbers: over every history of its sends, closes and consumer sections. */
module QueueCapacity {
  import opened PoolModel
  import opened QueueModel

  datatype QueueOp =
    | Send(item: Item)
    | CloseDown            // release
    | Kill                 // abort
    | TakeNext
    | Look
    | Done(refused: bool)
    | Leave

  predicate Can(q: Queue, op: QueueOp) {
    match op
    case TakeNext => q.consumer.Receiving? && q.buf != []
    case Look => q.consumer.Received?
    case Done(refused) => q.consumer.Dispatching? && (refused ==> q.consumer.item.isCall)
    case Leave => CanExit(q)
    case _ => true
  }

  function After(q: Queue, op: QueueOp): Queue
    requires Can(q, op)
  {
    match op
    case Send(item) => Enqueue(q, item).0
    case CloseDown => Release(q)
    case Kill => Abort(q)
    case TakeNext => Receive(q)
    case Look => Check(q)
    case Done(refused) => Settle(q, if refused then RefusedCall else Handled)
    case Leave => Exit(q)
  }

  ghost predicate Legal(cap: nat, history: seq<QueueOp>)
    decreases |history|, 0
  {
    history == [] ||
    (Legal(cap, history[..|history| - 1]) && Can(State(cap, history[..|history| - 1]), history[|history| - 1]))
  }

  ghost function State(cap: nat, history: seq<QueueOp>): Queue
    requires Legal(cap, history)
    decreases |history|, 1
  {
    if history == [] then NewQueue(cap) else After(State(cap, history[..|history| - 1]), history[|history| - 1])
  }

  /** Receives so far. */
  function Receives(history: seq<QueueOp>): nat {
    if history == [] then 0
    else Receives(history[..|history| - 1]) + if history[|history| - 1].TakeNext? then 1 else 0
  }

  /** Sends so far that were answered with no error. */
  ghost function Accepts(cap: nat, history: seq<QueueOp>): nat
    requires Legal(cap, history)
    decreases |history|
  {
    if history == [] then 0
    else
      var n := |history| - 1;
      Accepts(cap, history[..n]) +
      if history[n].Send? && Enqueue(State(cap, history[..n]), history[n].item).1.Accepted? then 1 else 0
  }

  predicate Closes(op: QueueOp) { op.CloseDown? || op.Kill? }

  ghost predicate ClosedIn(history: seq<QueueOp>) { exists i :: 0 <= i < |history| && Closes(history[i]) }

  lemma ClosedStep(history: seq<QueueOp>)
    requires history != []
    ensures ClosedIn(history) <==> ClosedIn(history[..|history| - 1]) || Closes(history[|history| - 1])
  {
    var n := |history| - 1;
    assert forall i :: 0 <= i < n ==> history[..n][i] == history[i];
    if ClosedIn(history) {
      var i :| 0 <= i < |history| && Closes(history[i]);
      assert i < n ==> Closes(history[..n][i]);
    }
    if ClosedIn(history[..n]) {
      var i :| 0 <= i < n && Closes(history[..n][i]);
      assert Closes(history[i]);
    }
  }

  lemma OneOp(q: Queue, op: QueueOp)
    requires QueueInv(q) && Can(q, op)
    ensures QueueInv(After(q, op)) && After(q, op).cap == q.cap
    ensures After(q, op).released <==> q.released || Closes(op)
    ensures |After(q, op).buf| == |q.buf| + (if op.Send? && Enqueue(q, op.item).1.Accepted? then 1 else 0)
                                          - (if op.TakeNext? then 1 else 0)
  {
    match op
    case Send(item) => EnqueueKeepsInv(q, item);
    case CloseDown => CloseKeepsInv(q);
    case Kill => CloseKeepsInv(q);
    case TakeNext => ReceiveKeepsInv(q);
    case Look => CheckKeepsInv(q);
    case Done(refused) => SettleKeepsInv(q, if refused then RefusedCall else Handled);
    case Leave => BirthAndExitInv(q, q.cap);
  }

  lemma {:induction false} HistoryOf(cap: nat, history: seq<QueueOp>)
    requires Legal(cap, history)
    ensures var q := State(cap, history);
      && QueueInv(q) && q.cap == cap
      && (q.released <==> ClosedIn(history))
      && |q.buf| + Receives(history) == Accepts(cap, history)
    decreases |history|
  {
    if history == [] {
      BirthAndExitInv(NewQueue(cap), cap);
    } else {
      var n := |history| - 1;
      HistoryOf(cap, history[..n]);
      OneOp(State(cap, history[..n]), history[n]);
      ClosedStep(history);
      hide QueueInv, Can, After, Enqueue, ClosedIn;
    }
  }

  /**
   * The reply to the next event, over every history of a queue with a buffer: released exactly if release or abort came
   * before; otherwise accepted exactly while fewer than `cap` of the accepted events are still to be received.
   */
  lemma ReplyInNumbers(cap: nat, history: seq<QueueOp>, item: Item)
    requires cap > 0 && Legal(cap, history)
    ensures Receives(history) <= Accepts(cap, history) <= Receives(history) + cap
    ensures Enqueue(State(cap, history), item).1 ==
      if ClosedIn(history) then QueueReleased
      else if Accepts(cap, history) < Receives(history) + cap then Accepted else QueueFull
  {
    HistoryOf(cap, history);
  }

  /** Without a buffer an event is taken exactly when the consumer is waiting for one and none is on its way. */
  lemma ReplyUnbuffered(history: seq<QueueOp>, item: Item)
    requires Legal(0, history)
    ensures Enqueue(State(0, history), item).1 ==
      if ClosedIn(history) then QueueReleased
      else if Accepts(0, history) == Receives(history) && State(0, history).consumer.Receiving? then Accepted
      else QueueFull
  {
    HistoryOf(0, history);
  }

  /** Sends into a new queue whose consumer does not get to run. */
  function Sends(items: seq<Item>): seq<QueueOp> {
    seq(|items|, i requires 0 <= i < |items| => Send(items[i]))
  }

  /** A new queue of capacity `cap` takes exactly the first `cap` events sent before the consumer receives. */
  lemma {:induction false} FillsUp(cap: nat, items: seq<Item>, next: Item)
    requires cap > 0
    ensures Legal(cap, Sends(items))
    ensures Enqueue(State(cap, Sends(items)), next).1 == if |items| < cap then Accepted else QueueFull
    ensures Accepts(cap, Sends(items)) == if |items| < cap then |items| else cap
    decreases |items|
  {
    var history := Sends(items);
    if items != [] {
      var n := |items| - 1;
      assert history[..n] == Sends(items[..n]) && history[n] == Send(items[n]);
      FillsUp(cap, items[..n], items[n]);
    }
    assert Legal(cap, history);
    NoReceives(history);
    ReplyInNumbers(cap, history, next);
  }

  lemma {:induction false} NoReceives(history: seq<QueueOp>)
    requires forall i :: 0 <= i < |history| ==> history[i].Send?
    ensures Receives(history) == 0 && !ClosedIn(history)
    decreases |history|
  {
    if history != [] { NoReceives(history[..|history| - 1]); }
  }
}
