/**
 * One worker pool together with every queue bound to it, the direct dispatches on it, and the reply channels of
 * all their events. A queue is bound to one pool when it is created, so this is all that its events ever meet.
 */
module CellModel {
  import opened Options
  import opened PoolModel
  import opened QueueModel

  type QueueId = nat

  /** What a reply channel can carry: a handler's own write, recoverPanic's error, or the consumer's dispatch error. */
  datatype Kind = Written(payload: nat) | HandlerPanic | DispatchError

  datatype Value = Value(author: EventId, kind: Kind)

  /** A reply channel of capacity one. `first` remembers the first value ever placed in it. */
  datatype Chan = Chan(owner: EventId, waiting: bool, buf: Option<Value>, first: Option<Value>, taken: Option<Value>)

  /** Where an event went: straight to dispatch, to position `index` of a queue, or back to its caller. */
  datatype Origin = Direct | Queued(q: QueueId, index: nat) | Rejected

  datatype Cell = Cell(
    pool: Pool,
    queues: map<QueueId, Queue>,
    chans: map<ChanId, Chan>,
    origin: map<EventId, Origin>    // every event submitted so far
  )

  datatype CellStep =
    | InPool(s: Step)
    | Write(ev: EventId, payload: nat)
    | SubmitDirect(ev: EventId, isCall: bool, chan: ChanId, work: nat)
    | Offer(q: QueueId, item: Item)
    | Create(q: QueueId, cap: nat)
    | ReleaseQueue(q: QueueId)
    | AbortQueue(q: QueueId)
    | ReceiveItem(q: QueueId)
    | ExitConsumer(q: QueueId)
    | CheckItem(q: QueueId)
    | SettleRefused(q: QueueId)
    | SettleDone(q: QueueId)
    | Take(chan: ChanId)
    | GiveUp(chan: ChanId)

  function NewCell(max: nat, reserved: int): Cell {
    Cell(PoolModel.Init(max, reserved), map[], map[], map[])
  }

  function NewChan(owner: EventId, isCall: bool): Chan { Chan(owner, isCall, None, None, None) }

  /** The send of recoverPanic and of the consumer: skipped when the channel is full. */
  function TryPlace(ch: Chan, v: Value): Chan {
    if ch.buf.Some? then ch
    else ch.(buf := Some(v), first := if ch.first.None? then Some(v) else ch.first)
  }

  predicate ConsumerIs(c: Cell, q: QueueId, test: Queue -> bool) { q in c.queues && test(c.queues[q]) }

  predicate IsReceived(q: Queue) { q.consumer.Received? }
  predicate IsDispatching(q: Queue) { q.consumer.Dispatching? }

  predicate CanStep(c: Cell, s: CellStep) {
    match s
    case InPool(ps) =>
      PoolModel.Enabled(c.pool, ps) && !ps.Dispatch? && (ps.Recover? ==> c.pool.tasks[ps.ev].resp in c.chans)
    case Write(ev, _) =>
      PoolModel.Enabled(c.pool, Work(ev)) && c.pool.tasks[ev].resp in c.chans
        && c.chans[c.pool.tasks[ev].resp].buf.None?
    case SubmitDirect(ev, _, chan, _) => ev !in c.origin && ev !in c.pool.tasks && chan !in c.chans
    case Offer(q, item) => q in c.queues && item.ev !in c.origin && item.resp !in c.chans
    case Create(q, _) => q !in c.queues
    case ReleaseQueue(q) => q in c.queues
    case AbortQueue(q) => q in c.queues
    case ReceiveItem(q) => q in c.queues && c.queues[q].consumer.Receiving? && c.queues[q].buf != []
    case ExitConsumer(q) => q in c.queues && CanExit(c.queues[q])
    case CheckItem(q) =>
      ConsumerIs(c, q, IsReceived) && (c.queues[q].aborted || c.queues[q].consumer.item.ev !in c.pool.tasks)
    case SettleRefused(q) =>
      ConsumerIs(c, q, IsDispatching) && InPhase(c.pool, c.queues[q].consumer.item.ev, Refused)
      && c.queues[q].consumer.item.resp in c.chans
    case SettleDone(q) => ConsumerIs(c, q, IsDispatching) && InPhase(c.pool, c.queues[q].consumer.item.ev, Closed)
    case Take(chan) => chan in c.chans && c.chans[chan].waiting && c.chans[chan].buf.Some?
    case GiveUp(chan) => chan in c.chans && c.chans[chan].waiting && c.chans[chan].owner in c.pool.cancelled
  }

  /** The pool step, if any, inside a step of the cell. A Push is dispatched under a context that is never done. */
  function PoolStep(c: Cell, s: CellStep): (ps: Option<Step>)
    requires CanStep(c, s)
    ensures ps.Some? ==> PoolModel.Enabled(c.pool, ps.value)
  {
    match s
    case InPool(ps) => Some(ps)
    case Write(ev, _) => Some(Work(ev))
    case SubmitDirect(ev, isCall, chan, work) => Some(Dispatch(ev, isCall, isCall, chan, work))
    case CheckItem(q) =>
      var item := c.queues[q].consumer.item;
      if c.queues[q].aborted then None else Some(Dispatch(item.ev, item.isCall, item.isCall, item.resp, item.work))
    case _ => None
  }

  function NextPool(c: Cell, s: CellStep): Pool
    requires CanStep(c, s)
  {
    var ps := PoolStep(c, s);
    if ps.Some? then PoolModel.Apply(c.pool, ps.value) else c.pool
  }

  function NextQueues(c: Cell, s: CellStep): map<QueueId, Queue>
    requires CanStep(c, s)
  {
    match s
    case Offer(q, item) => c.queues[q := Enqueue(c.queues[q], item).0]
    case Create(q, cap) => c.queues[q := NewQueue(cap)]
    case ReleaseQueue(q) => c.queues[q := Release(c.queues[q])]
    case AbortQueue(q) => c.queues[q := Abort(c.queues[q])]
    case ReceiveItem(q) => c.queues[q := Receive(c.queues[q])]
    case ExitConsumer(q) => c.queues[q := Exit(c.queues[q])]
    case CheckItem(q) => c.queues[q := Check(c.queues[q])]
    case SettleRefused(q) => c.queues[q := Settle(c.queues[q], RefusedCall)]
    case SettleDone(q) => c.queues[q := Settle(c.queues[q], Handled)]
    case _ => c.queues
  }

  /** A value on its way into a reply channel. */
  datatype Sending = Sending(chan: ChanId, value: Value)

  /** What a step sends, if anything: a handler's write, recoverPanic's error, or the consumer's dispatch error. */
  function Sends(c: Cell, s: CellStep): (sending: Option<Sending>)
    requires CanStep(c, s)
    ensures sending.Some? ==> sending.value.chan in c.chans
  {
    match s
    case InPool(Recover(ev)) => Some(Sending(c.pool.tasks[ev].resp, Value(ev, HandlerPanic)))
    case Write(ev, payload) => Some(Sending(c.pool.tasks[ev].resp, Value(ev, Written(payload))))
    case SettleRefused(q) =>
      var item := c.queues[q].consumer.item; Some(Sending(item.resp, Value(item.ev, DispatchError)))
    case _ => None
  }

  function NextChans(c: Cell, s: CellStep): map<ChanId, Chan>
    requires CanStep(c, s)
  {
    var sending := Sends(c, s);
    if sending.Some? then
      var Sending(chan, value) := sending.value; c.chans[chan := TryPlace(c.chans[chan], value)]
    else match s
      case SubmitDirect(ev, isCall, chan, _) => c.chans[chan := NewChan(ev, isCall)]
      case Offer(_, item) => c.chans[item.resp := NewChan(item.ev, item.isCall)]
      case Take(chan) => c.chans[chan := c.chans[chan].(waiting := false, buf := None, taken := c.chans[chan].buf)]
      case GiveUp(chan) => c.chans[chan := c.chans[chan].(waiting := false)]
      case _ => c.chans
  }

  function NextOrigin(c: Cell, s: CellStep): map<EventId, Origin>
    requires CanStep(c, s)
  {
    match s
    case SubmitDirect(ev, _, _, _) => c.origin[ev := Direct]
    case Offer(q, item) =>
      var accepted := Enqueue(c.queues[q], item).1.Accepted?;
      c.origin[item.ev := if accepted then Queued(q, |c.queues[q].accepted|) else Rejected]
    case _ => c.origin
  }

  /** The event ids ever accepted by a queue. */
  ghost function Events(items: seq<Item>): set<EventId> { set i | 0 <= i < |items| :: items[i].ev }

  /** The entries of `log` that belong to `ids`, in order. */
  ghost function Only(log: seq<EventId>, ids: set<EventId>): seq<EventId> {
    if log == [] then []
    else Only(log[..|log| - 1], ids) + (if log[|log| - 1] in ids then [log[|log| - 1]] else [])
  }

  /** Every Handle entry for an event of queue `q`, in order. */
  ghost function StartsOf(p: Pool, q: Queue): seq<EventId> { Only(p.starts, Events(q.accepted)) }

  function After(c: Cell, s: CellStep): Cell
    requires CanStep(c, s)
  {
    Cell(NextPool(c, s), NextQueues(c, s), NextChans(c, s), NextOrigin(c, s))
  }

  ghost predicate CanRun(c: Cell, run: seq<CellStep>)
    decreases |run|
  {
    run == [] || (CanStep(c, run[0]) && CanRun(After(c, run[0]), run[1..]))
  }

  ghost function AfterRun(c: Cell, run: seq<CellStep>): Cell
    requires CanRun(c, run)
    decreases |run|
  {
    if run == [] then c else AfterRun(After(c, run[0]), run[1..])
  }
}
