/**
 * Which pool, and whose Handle, an event reaches: by its own prefix, or by the queue it names. A history mixes the
 * lifecycle with the queue registry; an operation that concerns only one of them is a lookup in the other.
 */
module QueueRouting {
  import opened Options
  import opened Lifecycle
  import Registry
  import Routing

  type QueueName = Registry.QueueName

  /** A pool with what tells it from all others: its prefix and when it was made; and the registration it serves. */
  datatype Target = Target(prefix: Prefix, pool: PoolInfo, registration: nat)

  /** A queue is created with the pool that getHandler answered at point `seen` of the history. */
  datatype Act =
    | Life(op: Lifecycle.Op)
    | Create(id: QueueName, prefix: Prefix, seen: nat)
    | Release(id: QueueName)
    | AbortOne(id: QueueName)
    | AbortAll

  function ServiceOp(a: Act): Lifecycle.Op {
    match a
    case Life(op) => op
    case Create(_, prefix, _) => Lookup(prefix)
    case _ => Lookup("")
  }

  function ServiceOps(history: seq<Act>): (ops: seq<Lifecycle.Op>)
    ensures |ops| == |history|
  {
    seq(|history|, i requires 0 <= i < |history| => ServiceOp(history[i]))
  }

  /** What getHandler answers for prefix `p`, with the registration the answer rests on. */
  function Answered(ops: seq<Lifecycle.Op>, p: Prefix): Option<Target> {
    match GetHandler(Run(ops), p)
    case Found(_, Some(pool)) =>
      var r := LastRegister(ops, p);
      if r.Some? then Some(Target(p, pool, r.value)) else None
    case _ => None
  }

  function AnsweredAt(history: seq<Act>, k: nat, p: Prefix): Option<Target>
    requires k <= |history|
  {
    Answered(ServiceOps(history)[..k], p)
  }

  /** Every create was preceded by a getHandler that found its prefix. */
  ghost predicate Legal(history: seq<Act>) {
    forall i :: 0 <= i < |history| && history[i].Create? ==>
      history[i].seen <= i && AnsweredAt(history, history[i].seen, history[i].prefix).Some?
  }

  /** The registry's side: a queue object is known by the target its consumer dispatches to. */
  function QueueOp(history: seq<Act>, i: nat): Registry.Op<Option<Target>>
    requires i < |history|
  {
    match history[i]
    case Life(_) => Registry.Lookup("")
    case Create(id, prefix, seen) =>
      Registry.Create(id, if seen <= i then AnsweredAt(history, seen, prefix) else None)
    case Release(id) => Registry.Release(id)
    case AbortOne(id) => Registry.AbortOne(id)
    case AbortAll => Registry.AbortAll
  }

  function QueueOps(history: seq<Act>): (ops: seq<Registry.Op<Option<Target>>>)
    ensures |ops| == |history|
  {
    seq(|history|, i requires 0 <= i < |history| => QueueOp(history, i))
  }

  /**
   * Where an event goes that asked getHandler at point `asked` and then looks its queue up at the end of the history.
   * Nobody compares the queue's prefix, or its pool, with the answer of getHandler.
   */
  function Reached(history: seq<Act>, asked: nat, typ: string, queue: QueueName): Option<Target>
    requires asked <= |history|
  {
    if queue == "" then AnsweredAt(history, asked, Routing.PrefixOf(typ))
    else
      match Registry.Get(Registry.Run(QueueOps(history)), queue)
      case Queue(target) => target
      case _ => None
  }

  /** The event has a handler: getHandler found its prefix. */
  predicate Routable(history: seq<Act>, asked: nat, typ: string) {
    asked <= |history| && AnsweredAt(history, asked, Routing.PrefixOf(typ)).Some?
  }

  predicate SamePool(a: Option<Target>, b: Option<Target>) {
    a.Some? && b.Some? && a.value.prefix == b.value.prefix && a.value.pool == b.value.pool
  }

  predicate SameHandler(a: Option<Target>, b: Option<Target>) {
    a.Some? && b.Some? && a.value.prefix == b.value.prefix && a.value.registration == b.value.registration
  }

  /** Point `j` lies between two points of a history, whichever comes first. */
  predicate Between(a: nat, b: nat, j: nat) { a <= j < b || b <= j < a }

  // ---------------------------------------------------------------- two answers of getHandler

  /** The handler of a target is that of its registration. */
  lemma TargetServesItsRegistration(ops: seq<Lifecycle.Op>, p: Prefix)
    requires Answered(ops, p).Some?
    ensures var t := Answered(ops, p).value;
      t.registration < |ops| && RegistersAgain(ops, t.registration, p) && ops[t.registration].entry == t.pool.entry
  {
    LastRegisterIsLast(ops, p);
    RunKeepsPools(ops);
    HandlersAreLast(ops, p, LastRegister(ops, p).value);
  }

  lemma SamePoolBetween(ops: seq<Lifecycle.Op>, k: nat, m: nat, p: Prefix)
    requires k <= |ops| && m <= |ops| && Answered(ops[..k], p).Some? && Answered(ops[..m], p).Some?
    ensures SamePool(Answered(ops[..k], p), Answered(ops[..m], p)) <==>
              forall j :: 0 <= j < |ops| && Between(k, m, j) ==> !Replaces(ops, j, p)
  {
    if k <= m { KeepsPoolIff(ops, k, m, p); } else { KeepsPoolIff(ops, m, k, p); }
    hide Replaces, LastRegister, Run;
  }

  lemma SameHandlerBetween(ops: seq<Lifecycle.Op>, k: nat, m: nat, p: Prefix)
    requires k <= |ops| && m <= |ops| && Answered(ops[..k], p).Some? && Answered(ops[..m], p).Some?
    ensures SameHandler(Answered(ops[..k], p), Answered(ops[..m], p)) <==>
              forall j :: 0 <= j < |ops| && Between(k, m, j) ==> !RegistersAgain(ops, j, p)
  {
    if k <= m { KeepsRegistrationIff(ops, k, m, p); } else { KeepsRegistrationIff(ops, m, k, p); }
    hide RegistersAgain, LastRegister, Run;
  }

  // ---------------------------------------------------------------- the exact conditions

  /** The queue was created for the event's prefix by create `i`, and is the one that is live now. */
  ghost predicate QueueOf(history: seq<Act>, queue: QueueName, i: nat, p: Prefix) {
    i < |history| && Registry.MadeBy(QueueOps(history), queue, i) && history[i].Create? && history[i].prefix == p
  }

  /** The live queue's target is what getHandler answered at the create that made it. */
  lemma QueueTarget(history: seq<Act>, asked: nat, typ: string, queue: QueueName, i: nat)
    requires Legal(history) && asked <= |history| && queue != "" && Registry.MadeBy(QueueOps(history), queue, i)
    ensures i < |history| && history[i].Create? && history[i].seen <= |history|
    ensures Reached(history, asked, typ, queue) == AnsweredAt(history, history[i].seen, history[i].prefix)
    ensures Reached(history, asked, typ, queue).Some?
      && Reached(history, asked, typ, queue).value.prefix == history[i].prefix
  {
    Registry.GetRefinesPerIdMachine(QueueOps(history), queue);
    assert QueueOps(history)[i] == QueueOp(history, i);
  }

  /** A queue that is reached was made by some create. */
  lemma QueueMaker(history: seq<Act>, asked: nat, typ: string, queue: QueueName) returns (i: nat)
    requires asked <= |history| && queue != "" && Reached(history, asked, typ, queue).Some?
    ensures Registry.MadeBy(QueueOps(history), queue, i)
  {
    Registry.TablesMatch(QueueOps(history), queue);
    i :| Registry.MadeBy(QueueOps(history), queue, i);
  }

  ghost predicate PoolKept(history: seq<Act>, seen: nat, asked: nat, p: Prefix) {
    forall j :: 0 <= j < |history| && Between(seen, asked, j) ==> !Replaces(ServiceOps(history), j, p)
  }

  ghost predicate RegistrationKept(history: seq<Act>, seen: nat, asked: nat, p: Prefix) {
    forall j :: 0 <= j < |history| && Between(seen, asked, j) ==> !RegistersAgain(ServiceOps(history), j, p)
  }

  /** One create: the event's own pool, or handler, exactly if its prefix is the event's and nothing came in between. */
  lemma OneCreate(history: seq<Act>, asked: nat, typ: string, queue: QueueName, i: nat)
    requires Legal(history) && Routable(history, asked, typ) && queue != ""
    requires Registry.MadeBy(QueueOps(history), queue, i)
    ensures var p := Routing.PrefixOf(typ);
      var own, r := AnsweredAt(history, asked, p), Reached(history, asked, typ, queue);
      && history[i].Create?
      && (SamePool(r, own) <==> history[i].prefix == p && PoolKept(history, history[i].seen, asked, p))
      && (SameHandler(r, own) <==> history[i].prefix == p && RegistrationKept(history, history[i].seen, asked, p))
  {
    hide Routing.PrefixOf, Legal, Answered, Registry.MadeBy;
    var p := Routing.PrefixOf(typ);
    QueueTarget(history, asked, typ, queue, i);
    AnswerHasPrefix(ServiceOps(history)[..asked], p);
    if history[i].prefix == p {
      SamePoolBetween(ServiceOps(history), history[i].seen, asked, p);
      SameHandlerBetween(ServiceOps(history), history[i].seen, asked, p);
    }
    hide Reached, QueueOps, ServiceOps, Replaces, RegistersAgain;
  }

  lemma AnswerHasPrefix(ops: seq<Lifecycle.Op>, p: Prefix)
    ensures Answered(ops, p).Some? ==> Answered(ops, p).value.prefix == p
  {}

  /**
   * The pool an event reaches is the one getHandler answered, over every history and for every event that has a
   * handler, exactly when it names no queue, or the queue it names is live, was created for its prefix, and between the
   * getHandler of that create and its own neither a registration of the prefix while the service ran nor a start that
   * took effect came in between.
   */
  lemma OwnPoolIff(history: seq<Act>, asked: nat, typ: string, queue: QueueName)
    requires Legal(history) && Routable(history, asked, typ)
    ensures var p := Routing.PrefixOf(typ);
      SamePool(Reached(history, asked, typ, queue), AnsweredAt(history, asked, p)) <==>
        queue == "" || exists i: nat :: QueueOf(history, queue, i, p) && PoolKept(history, history[i].seen, asked, p)
  {
    hide Legal, Answered, SameHandler, PoolKept, RegistrationKept, Routing.PrefixOf;
    var p := Routing.PrefixOf(typ);
    if queue != "" {
      forall i: nat | Registry.MadeBy(QueueOps(history), queue, i)
        ensures history[i].Create?
        ensures SamePool(Reached(history, asked, typ, queue), AnsweredAt(history, asked, p)) <==>
                  QueueOf(history, queue, i, p) && PoolKept(history, history[i].seen, asked, p)
      {
        OneCreate(history, asked, typ, queue, i);
      }
      if Reached(history, asked, typ, queue).Some? { var i := QueueMaker(history, asked, typ, queue); }
    }
  }

  /**
   * And its handler is the one getHandler answered exactly when it names no queue, or a live one created for its
   * prefix, with no registration of that prefix in between.
   */
  lemma OwnHandlerIff(history: seq<Act>, asked: nat, typ: string, queue: QueueName)
    requires Legal(history) && Routable(history, asked, typ)
    ensures var p := Routing.PrefixOf(typ);
      SameHandler(Reached(history, asked, typ, queue), AnsweredAt(history, asked, p)) <==>
        queue == "" || exists i: nat ::
          QueueOf(history, queue, i, p) && RegistrationKept(history, history[i].seen, asked, p)
  {
    hide Legal, Answered, SamePool, PoolKept, RegistrationKept, Routing.PrefixOf;
    var p := Routing.PrefixOf(typ);
    if queue != "" {
      forall i: nat | Registry.MadeBy(QueueOps(history), queue, i)
        ensures history[i].Create?
        ensures SameHandler(Reached(history, asked, typ, queue), AnsweredAt(history, asked, p)) <==>
                  QueueOf(history, queue, i, p) && RegistrationKept(history, history[i].seen, asked, p)
      {
        OneCreate(history, asked, typ, queue, i);
      }
      if Reached(history, asked, typ, queue).Some? { var i := QueueMaker(history, asked, typ, queue); }
    }
  }

  // ---------------------------------------------------------------- two ways to reach another handler

  const JOB := "job"
  const TRACE := "trace"

  /** A trace event on a queue created for jobs is handled by the job handler. */
  lemma ForeignHandler(job: Entry, trace: Entry)
    ensures var h := [Life(Register(JOB, job)), Life(Register(TRACE, trace)), Life(Start), Create("q", JOB, 3)];
      && Legal(h) && Routable(h, 4, "trace.add")
      && Reached(h, 4, "trace.add", "q") == Some(Target(JOB, PoolInfo(job, 2), 0))
      && AnsweredAt(h, 4, Routing.PrefixOf("trace.add")) == Some(Target(TRACE, PoolInfo(trace, 2), 1))
  {
    var h := [Life(Register(JOB, job)), Life(Register(TRACE, trace)), Life(Start), Create("q", JOB, 3)];
    var s0, s1 := Register(JOB, job), Register(TRACE, trace);
    PrefixIs("trace.add", TRACE);
    ForeignAnswers(job, trace);
    hide Answered, Run, Routing.PrefixOf, Reached, QueueOf, Legal;
    assert ServiceOps(h)[..3] == [s0, s1, Start] && ServiceOps(h)[..4] == [s0, s1, Start, Lookup(JOB)];
    OneQueue(h, 3, 4, "trace.add", "q", JOB, 3);
  }

  lemma PrefixIs(typ: string, p: string)
    requires '.' !in p && p + "." <= typ
    ensures Routing.PrefixOf(typ) == p
  {
    Routing.RoutedTo(p, typ);
  }

  /** A history whose only queue operation is one create. */
  lemma OneQueue(h: seq<Act>, c: nat, asked: nat, typ: string, queue: QueueName, prefix: Prefix, seen: nat)
    requires c < |h| && asked <= |h| && seen <= c && queue != "" && h[c] == Create(queue, prefix, seen)
    requires forall i :: 0 <= i < |h| && i != c ==> h[i].Life?
    ensures QueueOf(h, queue, c, prefix) && Reached(h, asked, typ, queue) == AnsweredAt(h, seen, prefix)
    ensures AnsweredAt(h, seen, prefix).Some? ==> Legal(h)
  {
    hide Answered, Registry.Run;
    var ops := QueueOps(h);
    assert forall i :: 0 <= i < |h| ==> ops[i] == QueueOp(h, i);
    assert Registry.LiveSince(ops, queue, c);
    assert forall k: nat :: k < c ==> !Registry.LiveSince(ops, queue, k);
    assert Registry.MadeBy(ops, queue, c);
    Registry.GetRefinesPerIdMachine(ops, queue);
  }

  lemma ForeignAnswers(job: Entry, trace: Entry)
    ensures Answered([Register(JOB, job), Register(TRACE, trace), Start], JOB) == Some(Target(JOB, PoolInfo(job, 2), 0))
    ensures Answered([Register(JOB, job), Register(TRACE, trace), Start, Lookup(JOB)], TRACE) ==
              Some(Target(TRACE, PoolInfo(trace, 2), 1))
  {
    var ops := [Register(JOB, job), Register(TRACE, trace), Start, Lookup(JOB)];
    assert JOB[0] != TRACE[0];
    LatestIs([Register(JOB, job), Register(TRACE, trace), Start], JOB, 0);
    LatestIs(ops, TRACE, 1);
    ForeignRun(job, trace);
    hide Run, LastRegister;
  }

  lemma ForeignRun(job: Entry, trace: Entry)
    ensures var s := Lifecycle.Service(true, map[JOB := job, TRACE := trace],
                                       map[JOB := PoolInfo(job, 2), TRACE := PoolInfo(trace, 2)]);
      && Run([Register(JOB, job), Register(TRACE, trace), Start]) == s
      && Run([Register(JOB, job), Register(TRACE, trace), Start, Lookup(JOB)]) == s
  {
    assert Run([]) == Lifecycle.EMPTY;
    hide Run, LastRegister;
    var handlers := map[JOB := job, TRACE := trace];
    var pools := map[JOB := PoolInfo(job, 2), TRACE := PoolInfo(trace, 2)];
    OneMore([], Register(JOB, job), [Register(JOB, job)]);
    OneMore([Register(JOB, job)], Register(TRACE, trace), [Register(JOB, job), Register(TRACE, trace)]);
    assert Run([Register(JOB, job), Register(TRACE, trace)]) == Lifecycle.Service(false, handlers, map[]);
    var three := [Register(JOB, job), Register(TRACE, trace), Start];
    OneMore([Register(JOB, job), Register(TRACE, trace)], Start, three);
    assert NewPools(handlers, handlers.Keys, 2) == pools;
    assert map[] + pools == pools;
    OneMore(three, Lookup(JOB), three + [Lookup(JOB)]);
    assert three + [Lookup(JOB)] == [Register(JOB, job), Register(TRACE, trace), Start, Lookup(JOB)];
  }

  /** The service after one more operation. */
  lemma OneMore(ops: seq<Lifecycle.Op>, op: Lifecycle.Op, longer: seq<Lifecycle.Op>)
    requires longer == ops + [op]
    ensures Run(longer) == After(Run(ops), op, |ops|)
  {
    assert longer[..|longer| - 1] == ops;
  }

  /** The latest registration is operation `r`, and there was none after it. */
  lemma {:induction false} LatestIs(ops: seq<Lifecycle.Op>, p: Prefix, r: nat)
    requires RegisteredLast(ops, p, r)
    ensures LastRegister(ops, p) == Some(r)
    decreases |ops|
  {
    var n := |ops| - 1;
    if r < n {
      assert !RegistersAgain(ops, n, p);
      assert forall j :: 0 <= j < n ==> ops[..n][j] == ops[j];
      LatestIs(ops[..n], p, r);
    }
  }

  /** A prefix registered again after its queue was created: the old handler still gets what the queue is given. */
  lemma ReplacedHandler(first: Entry, second: Entry)
    ensures var h := [Life(Register(JOB, first)), Life(Start), Create("q", JOB, 2), Life(Register(JOB, second))];
      && Legal(h) && Routable(h, 4, "job.add") && QueueOf(h, "q", 2, Routing.PrefixOf("job.add"))
      && Reached(h, 4, "job.add", "q") == Some(Target(JOB, PoolInfo(first, 1), 0))
      && AnsweredAt(h, 4, Routing.PrefixOf("job.add")) == Some(Target(JOB, PoolInfo(second, 3), 3))
  {
    var h := [Life(Register(JOB, first)), Life(Start), Create("q", JOB, 2), Life(Register(JOB, second))];
    PrefixIs("job.add", JOB);
    ReplacedAnswers(first, second);
    hide Answered, Run, Routing.PrefixOf, Reached, QueueOf, Legal;
    var r0, r3 := Register(JOB, first), Register(JOB, second);
    assert ServiceOps(h)[..2] == [r0, Start] && ServiceOps(h)[..4] == [r0, Start, Lookup(JOB), r3];
    OneQueue(h, 2, 4, "job.add", "q", JOB, 2);
  }

  lemma ReplacedAnswers(first: Entry, second: Entry)
    ensures Answered([Register(JOB, first), Start], JOB) == Some(Target(JOB, PoolInfo(first, 1), 0))
    ensures Answered([Register(JOB, first), Start, Lookup(JOB), Register(JOB, second)], JOB) ==
              Some(Target(JOB, PoolInfo(second, 3), 3))
  {
    var ops := [Register(JOB, first), Start, Lookup(JOB), Register(JOB, second)];
    LatestIs([Register(JOB, first), Start], JOB, 0);
    LatestIs(ops, JOB, 3);
    assert Run([]) == Lifecycle.EMPTY;
    hide Run, LastRegister;
    var s := Lifecycle.Service(true, map[JOB := first], map[JOB := PoolInfo(first, 1)]);
    OneMore([], ops[0], [Register(JOB, first)]);
    OneMore([Register(JOB, first)], Start, [Register(JOB, first), Start]);
    assert NewPools(s.handlers, s.handlers.Keys, 1) == s.pools && map[] + s.pools == s.pools;
    OneMore([Register(JOB, first), Start], Lookup(JOB), [Register(JOB, first), Start, Lookup(JOB)]);
    OneMore([Register(JOB, first), Start, Lookup(JOB)], Register(JOB, second), ops);
  }
}
