/**
 * The service lifecycle on values: Register, Start, Stop and Reload over the started flag and the handler and pool
 * tables. The operations of a history are numbered, and a pool is known by the number of the one that made it.
 */
module Lifecycle {
  import opened Options

  type Prefix = string

  datatype Entry = Entry(handler: nat, maxWorkers: nat, reservedWorkers: int, queueSize: nat)

  /** A worker pool: the registration it was made for and when. */
  datatype PoolInfo = PoolInfo(entry: Entry, born: nat)

  datatype Service = Service(started: bool, handlers: map<Prefix, Entry>, pools: map<Prefix, PoolInfo>)

  datatype Op = Register(prefix: Prefix, entry: Entry) | Start | Stop | Reload | Lookup(prefix: Prefix)

  /** What getHandler answers; a missing pool is a nil pointer. */
  datatype Answer = NotStarted | NoHandler | Found(entry: Entry, pool: Option<PoolInfo>)

  const EMPTY := Service(false, map[], map[])

  function NewPools(handlers: map<Prefix, Entry>, which: set<Prefix>, now: nat): map<Prefix, PoolInfo>
    requires which <= handlers.Keys
  {
    map p | p in which :: PoolInfo(handlers[p], now)
  }

  function After(s: Service, op: Op, now: nat): Service {
    match op
    case Register(p, e) =>
      s.(handlers := s.handlers[p := e], pools := if s.started then s.pools[p := PoolInfo(e, now)] else s.pools)
    case Start =>
      if s.started then s else s.(started := true, pools := s.pools + NewPools(s.handlers, s.handlers.Keys, now))
    case Stop => s.(started := false)
    case Reload =>
      if s.started then s.(pools := s.pools + NewPools(s.handlers, s.handlers.Keys - s.pools.Keys, now)) else s
    case Lookup(_) => s
  }

  function GetHandler(s: Service, p: Prefix): Answer {
    if !s.started then NotStarted
    else if p !in s.handlers then NoHandler
    else Found(s.handlers[p], if p in s.pools then Some(s.pools[p]) else None)
  }

  function Run(history: seq<Op>): Service {
    if history == [] then EMPTY
    else After(Run(history[..|history| - 1]), history[|history| - 1], |history| - 1)
  }

  // ---------------------------------------------------------------- the history's side

  ghost predicate RegisteredLast(history: seq<Op>, p: Prefix, i: nat) {
    && i < |history| && history[i].Register? && history[i].prefix == p
    && forall j :: i < j < |history| ==> !(history[j].Register? && history[j].prefix == p)
  }

  /** Start number `i` is the one that started the service as it now runs. */
  ghost predicate StartedBy(history: seq<Op>, i: nat) {
    && i < |history| && history[i].Start? && !Run(history[..i]).started
    && forall j :: i < j < |history| ==> !history[j].Stop?
  }

  /** Every registered prefix of a started service has the pool that its own registration asked for. */
  ghost predicate PoolsMatch(s: Service) {
    && s.pools.Keys <= s.handlers.Keys
    && (s.started ==> forall p <- s.handlers.Keys :: p in s.pools && s.pools[p].entry == s.handlers[p])
  }

  lemma AfterKeepsPools(s: Service, op: Op, now: nat)
    requires PoolsMatch(s)
    ensures PoolsMatch(After(s, op, now))
    ensures op.Reload? ==> After(s, op, now) == s
  {
    if op.Reload? && s.started {
      assert s.handlers.Keys - s.pools.Keys == {};
    }
  }

  lemma {:induction false} RunKeepsPools(history: seq<Op>)
    ensures PoolsMatch(Run(history))
    decreases |history|
  {
    if history != [] {
      RunKeepsPools(history[..|history| - 1]);
      AfterKeepsPools(Run(history[..|history| - 1]), history[|history| - 1], |history| - 1);
    }
  }

  lemma {:induction false} HandlersAreLast(history: seq<Op>, p: Prefix, i: nat)
    requires RegisteredLast(history, p, i)
    ensures p in Run(history).handlers && Run(history).handlers[p] == history[i].entry
    decreases |history|
  {
    var n := |history| - 1;
    if i < n {
      assert forall j :: 0 <= j < n ==> history[..n][j] == history[j];
      HandlersAreLast(history[..n], p, i);
      assert !(history[n].Register? && history[n].prefix == p);
    }
  }

  lemma {:induction false} HandlersAreRegistered(history: seq<Op>, p: Prefix)
    requires p in Run(history).handlers
    ensures exists i: nat :: RegisteredLast(history, p, i)
    decreases |history|
  {
    var n := |history| - 1;
    if history[n].Register? && history[n].prefix == p {
      assert RegisteredLast(history, p, n);
    } else {
      HandlersAreRegistered(history[..n], p);
      var i: nat :| RegisteredLast(history[..n], p, i);
      assert forall j :: 0 <= j < n ==> history[..n][j] == history[j];
      assert RegisteredLast(history, p, i);
    }
  }

  lemma StartedByLonger(history: seq<Op>, op: Op, i: nat)
    requires StartedBy(history, i) && !op.Stop?
    ensures StartedBy(history + [op], i)
  {
    assert (history + [op])[..i] == history[..i];
  }

  /**
   * A running service was started by the first Start since the last Stop, and each of its pools was made by that
   * Start or, if the prefix was registered later, by that registration: Reload never makes one.
   */
  lemma {:induction false} RunningSince(history: seq<Op>) returns (start: nat)
    requires Run(history).started
    ensures StartedBy(history, start)
    ensures forall p <- Run(history).handlers.Keys, i: nat | RegisteredLast(history, p, i) ::
      p in Run(history).pools && Run(history).pools[p].born == if i < start then start else i
    decreases |history|
  {
    var n := |history| - 1;
    var before, op := history[..n], history[n];
    assert history == before + [op];
    var s := Run(before);
    RunKeepsPools(before);
    if s.started {
      start := RunningSince(before);
      StartedByLonger(before, op, start);
      AfterKeepsPools(s, op, n);
      forall p, i: nat | p in Run(history).handlers && RegisteredLast(history, p, i)
        ensures p in Run(history).pools && Run(history).pools[p].born == if i < start then start else i
      {
        if i < n { LastBefore(history, p, i); }
      }
    } else {
      start := n;
      assert history[..n] == before;
      forall p, i: nat | p in Run(history).handlers && RegisteredLast(history, p, i)
        ensures p in Run(history).pools && Run(history).pools[p].born == if i < start then start else i
      {
        assert p in NewPools(s.handlers, s.handlers.Keys, n);
      }
    }
  }

  lemma LastBefore(history: seq<Op>, p: Prefix, i: nat)
    requires RegisteredLast(history, p, i) && i < |history| - 1
    ensures RegisteredLast(history[..|history| - 1], p, i)
    ensures p in Run(history[..|history| - 1]).handlers
  {
    var before := history[..|history| - 1];
    assert forall j :: 0 <= j < |before| ==> before[j] == history[j];
    HandlersAreLast(before, p, i);
  }

  /**
   * getHandler over every history: a registration is found exactly when the service runs and the prefix was ever
   * registered, it is the latest one, and it always comes with a pool, made for this very registration.
   */
  lemma HandlerAlwaysHasPool(history: seq<Op>, p: Prefix)
    ensures var answer := GetHandler(Run(history), p);
      && (answer.NotStarted? <==> !Run(history).started)
      && (answer.NoHandler? <==> Run(history).started && !exists i: nat :: RegisteredLast(history, p, i))
      && (answer.Found? ==> answer.pool.Some? && answer.pool.value.entry == answer.entry)
      && forall i: nat :: answer.Found? && RegisteredLast(history, p, i) ==> answer.entry == history[i].entry
  {
    RunKeepsPools(history);
    if p in Run(history).handlers {
      HandlersAreRegistered(history, p);
    }
    forall i: nat | RegisteredLast(history, p, i)
      ensures p in Run(history).handlers && Run(history).handlers[p] == history[i].entry
    {
      HandlersAreLast(history, p, i);
    }
  }

  // ---------------------------------------------------------------- when a prefix gets another pool

  /** Operation `j` gives prefix `p` a new pool: a registration while the service runs, or a start that takes effect. */
  predicate Replaces(history: seq<Op>, j: nat, p: Prefix)
    requires j < |history|
  {
    if Run(history[..j]).started then history[j].Register? && history[j].prefix == p else history[j].Start?
  }

  predicate RegistersAgain(history: seq<Op>, j: nat, p: Prefix)
    requires j < |history|
  {
    history[j].Register? && history[j].prefix == p
  }

  lemma {:induction false} BornBefore(history: seq<Op>, p: Prefix)
    ensures p in Run(history).pools ==> Run(history).pools[p].born < |history|
    decreases |history|
  {
    if history != [] {
      BornBefore(history[..|history| - 1], p);
    }
  }

  lemma OnePoolStep(history: seq<Op>, n: nat, p: Prefix)
    requires n < |history| && p in Run(history[..n]).pools
    ensures p in Run(history[..n + 1]).pools
    ensures var s, t := Run(history[..n]), Run(history[..n + 1]);
      if Replaces(history, n, p) then t.pools[p].born == n else t.pools[p] == s.pools[p]
  {
    RunKeepsPools(history[..n]);
    assert history[..n + 1][..n] == history[..n];
    assert Run(history[..n + 1]) == After(Run(history[..n]), history[n], n);
  }

  /** A prefix keeps its pool exactly as long as no operation replaces it. */
  lemma {:induction false} KeepsPoolIff(history: seq<Op>, k: nat, m: nat, p: Prefix)
    requires k <= m <= |history| && p in Run(history[..k]).pools
    ensures p in Run(history[..m]).pools
    ensures Run(history[..m]).pools[p] == Run(history[..k]).pools[p] <==>
              forall j :: k <= j < m ==> !Replaces(history, j, p)
    ensures Run(history[..m]).pools[p] == Run(history[..k]).pools[p] || Run(history[..m]).pools[p].born >= k
    decreases m
  {
    BornBefore(history[..k], p);
    if k < m {
      KeepsPoolIff(history, k, m - 1, p);
      OnePoolStep(history, m - 1, p);
      hide Run, Replaces;
    }
  }

  /** The number of the latest registration of a prefix. */
  function LastRegister(history: seq<Op>, p: Prefix): Option<nat> {
    if history == [] then None
    else
      var n := |history| - 1;
      if RegistersAgain(history, n, p) then Some(n) else LastRegister(history[..n], p)
  }

  lemma {:induction false} LastRegisterIsLast(history: seq<Op>, p: Prefix)
    ensures LastRegister(history, p).Some? ==> RegisteredLast(history, p, LastRegister(history, p).value)
    ensures p in Run(history).handlers <==> LastRegister(history, p).Some?
    decreases |history|
  {
    if history != [] {
      var n := |history| - 1;
      LastRegisterIsLast(history[..n], p);
      assert forall j :: 0 <= j < n ==> history[..n][j] == history[j];
    }
  }

  /** A prefix keeps its registration exactly as long as it is not registered again. */
  lemma {:induction false} KeepsRegistrationIff(history: seq<Op>, k: nat, m: nat, p: Prefix)
    requires k <= m <= |history| && LastRegister(history[..k], p).Some?
    ensures LastRegister(history[..m], p).Some?
    ensures LastRegister(history[..m], p) == LastRegister(history[..k], p) <==>
              forall j :: k <= j < m ==> !RegistersAgain(history, j, p)
    decreases m
  {
    LastRegisterIsLast(history[..k], p);
    LastRegisterIsLast(history[..m], p);
    if k < m {
      KeepsRegistrationIff(history, k, m - 1, p);
      assert history[..m][..m - 1] == history[..m - 1] && history[..m][m - 1] == history[m - 1];
      assert LastRegister(history[..m], p) ==
        if RegistersAgain(history, m - 1, p) then Some(m - 1) else LastRegister(history[..m - 1], p);
      assert LastRegister(history[..k], p).value < k;
      hide LastRegister, RegisteredLast, RegistersAgain;
    }
  }
}

/** The service object: its fields under one lock, each method one critical section. */
module Services {
  import opened Lifecycle
  import opened PoolModel
  import opened WorkerPools

  class Service {
    var started: bool
    var handlers: map<Prefix, Entry>
    var pools: map<Prefix, WorkerPool>
    ghost var births: map<Prefix, PoolInfo>   // what each pool was made for, and when
    ghost var now: nat                        // operations so far

    ghost function View(): Lifecycle.Service
      reads this
    {
      Lifecycle.Service(started, handlers, births)
    }

    ghost predicate Valid()
      reads this
    {
      PoolsMatch(View()) && Fit(pools, births) && Unshared(pools)
    }

    constructor ()
      ensures Valid() && View() == EMPTY && now == 0 && pools == map[]
    {
      started, handlers, pools := false, map[], map[];
      births, now := map[], 0;
    }

    /** While the service runs, the prefix gets a new pool at once; otherwise every pool stays. */
    method Register(prefix: Prefix, entry: Entry)
      requires Valid()
      modifies this
      ensures Valid() && View() == After(old(View()), Lifecycle.Register(prefix, entry), old(now))
        && now == old(now) + 1
      ensures if started then IsNew(prefix) && pools == old(pools)[prefix := pools[prefix]] else pools == old(pools)
    {
      hide Fit, Unshared, PoolsMatch, NewPool;
      AfterKeepsPools(View(), Lifecycle.Register(prefix, entry), now);
      handlers := handlers[prefix := entry];
      if started {
        MakePool(prefix);
      }
      now := now + 1;
    }

    /** The pool of a prefix was made since, is empty, and has nothing running. */
    twostate predicate IsNew(prefix: Prefix)
      reads this, if prefix in pools then {pools[prefix]} else {}
    {
      prefix in pools && fresh(pools[prefix]) && NewPool(pools[prefix])
    }

    /** Replaces the pool of a registered prefix by a new one with the capacities of its registration. */
    method MakePool(prefix: Prefix)
      requires prefix in handlers && Fit(pools, births) && Unshared(pools)
      modifies this
      ensures started == old(started) && handlers == old(handlers) && now == old(now)
      ensures births == old(births)[prefix := PoolInfo(handlers[prefix], now)] && Fit(pools, births) && Unshared(pools)
      ensures IsNew(prefix) && pools == old(pools)[prefix := pools[prefix]]
    {
      var entry := handlers[prefix];
      var pool := new WorkerPool(entry.maxWorkers, entry.reservedWorkers);
      Capacities(pool, entry);
      hide WorkerPool.Valid, WorkerPool.Model, Init, PoolsMatch, NewPool;
      pools := pools[prefix := pool];
      births := births[prefix := PoolInfo(entry, now)];
    }

    /** Every registration gets a new pool, unless the service was started already and nothing changes. */
    method Start() returns (already: bool)
      requires Valid()
      modifies this
      ensures Valid() && View() == After(old(View()), Lifecycle.Start, old(now)) && now == old(now) + 1
      ensures already == old(started)
      ensures if already then pools == old(pools) else pools.Keys == handlers.Keys && forall p <- pools.Keys :: IsNew(p)
    {
      hide Fit, Unshared, NewPools, NewPool;
      AfterKeepsPools(View(), Lifecycle.Start, now);
      already := started;
      if !started {
        KeysFit(pools, births);
        MakePools(handlers.Keys);
        KeysFit(pools, births);
        started := true;
      }
      now := now + 1;
    }

    /** A new pool for each of these registrations, in any order. */
    method MakePools(which: set<Prefix>)
      requires which <= handlers.Keys && Fit(pools, births) && Unshared(pools)
      modifies this
      ensures started == old(started) && handlers == old(handlers) && now == old(now)
      ensures births == old(births) + NewPools(handlers, which, now) && Fit(pools, births) && Unshared(pools)
      ensures forall p <- which :: IsNew(p)
      ensures pools.Keys == old(pools.Keys) + which && forall p <- pools.Keys ::
        p !in which ==> pools[p] == old(pools)[p]
    {
      hide Fit, Unshared, NewPool, NewPools;
      var left := which;
      ghost var done: set<Prefix> := {};
      NoMore(births, handlers, now);
      while left != {}
        invariant done + left == which && done !! left
        invariant started == old(started) && handlers == old(handlers) && now == old(now)
        invariant births == old(births) + NewPools(handlers, done, now) && Fit(pools, births) && Unshared(pools)
        invariant forall p <- done :: p in pools && fresh(pools[p]) && NewPool(pools[p])
        invariant pools.Keys == old(pools.Keys) + done
        invariant forall p <- pools.Keys :: p !in done ==> pools[p] == old(pools)[p]
      {
        hide Fit, Unshared, NewPool, NewPools;
        var prefix :| prefix in left;
        OneMore(old(births), handlers, done, prefix, now);
        MakePool(prefix);
        left := left - {prefix};
        done := done + {prefix};
      }
      assert done == which;
    }

    /** Stop's critical section: the flag, and the snapshot that the rest of Stop works on. */
    method BeginStop() returns (was: bool, poolList: map<Prefix, WorkerPool>, handlerList: map<Prefix, Entry>)
      requires Valid()
      modifies this
      ensures Valid() && View() == After(old(View()), Lifecycle.Stop, old(now)) && now == old(now) + 1
      ensures was == old(started) && pools == old(pools)
      ensures was ==> handlerList == handlers && poolList == pools && handlerList.Keys <= poolList.Keys
    {
      now := now + 1;
      if !started {
        return false, map[], map[];
      }
      started := false;
      return true, pools, handlers;
    }

    method Reload() returns (notStarted: bool)
      requires Valid()
      modifies this
      ensures Valid() && View() == After(old(View()), Lifecycle.Reload, old(now)) && now == old(now) + 1
      ensures notStarted == !old(started) && pools == old(pools)
    {
      hide Fit, Unshared, NewPools, NewPool;
      AfterKeepsPools(View(), Lifecycle.Reload, now);
      notStarted := !started;
      if started {
        var missing := set p <- handlers.Keys | p !in pools;
        KeysFit(pools, births);
        assert missing == handlers.Keys - births.Keys;
        MakePools(missing);
      }
      now := now + 1;
    }

    function GetHandler(prefix: Prefix): (found: Lookup)
      reads this
      requires Valid()
      ensures (found == ServiceDown <==> !started) && (found.Ready? <==> started && prefix in handlers)
      ensures match Lifecycle.GetHandler(View(), prefix)
        case NotStarted => found == ServiceDown
        case NoHandler => found == NotRegistered
        case Found(entry, pool) =>
          && pool.Some? && found.Ready? && found.entry == entry && MadeFor(found.pool, entry)
          && prefix in pools && found.pool == pools[prefix]
    {
      if !started then ServiceDown
      else if prefix !in handlers then NotRegistered
      else Ready(handlers[prefix], pools[prefix])
    }
  }

  datatype Lookup = ServiceDown | NotRegistered | Ready(entry: Entry, pool: WorkerPool)

  /** The capacities newWorkerPool gives the pool of a registration. */
  predicate MadeFor(pool: WorkerPool, entry: Entry) {
    pool.max == entry.maxWorkers && pool.pushCap == PushSlots(entry.maxWorkers, entry.reservedWorkers)
  }

  /** No two prefixes share a pool. */
  ghost predicate Unshared(pools: map<Prefix, WorkerPool>) {
    forall a <- pools.Keys, b <- pools.Keys :: a != b ==> pools[a] != pools[b]
  }

  /** A pool that nothing has been dispatched to. */
  ghost predicate NewPool(pool: WorkerPool)
    reads pool
  {
    pool.Valid() && pool.routines == map[] && pool.Model() == Pool(pool.max, pool.pushCap, 0, 0, 0, map[], {}, [], [])
  }

  ghost predicate Fit(pools: map<Prefix, WorkerPool>, births: map<Prefix, PoolInfo>) {
    births.Keys == pools.Keys && forall p <- pools.Keys :: MadeFor(pools[p], births[p].entry)
  }

  lemma KeysFit(pools: map<Prefix, WorkerPool>, births: map<Prefix, PoolInfo>)
    requires Fit(pools, births)
    ensures births.Keys == pools.Keys
  {}

  lemma Capacities(pool: WorkerPool, entry: Entry)
    requires pool.Model() == Init(entry.maxWorkers, entry.reservedWorkers)
    ensures MadeFor(pool, entry)
  {}

  lemma NoMore(births: map<Prefix, PoolInfo>, handlers: map<Prefix, Entry>, now: nat)
    ensures births + NewPools(handlers, {}, now) == births
  {}

  lemma OneMore(births: map<Prefix, PoolInfo>, handlers: map<Prefix, Entry>, done: set<Prefix>, p: Prefix, now: nat)
    requires done <= handlers.Keys && p in handlers
    ensures births + NewPools(handlers, done + {p}, now) ==
      (births + NewPools(handlers, done, now))[p := PoolInfo(handlers[p], now)]
  {}
}
