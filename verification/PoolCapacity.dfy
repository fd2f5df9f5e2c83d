/** How many handlers a pool really runs at once: its bounds in plain numbers, and that they are reached. */
module PoolCapacity {
  import opened Sums
  import opened PoolModel

  /** The most Push handlers that run at once. */
  function MostPushes(max: nat, reserved: int): int {
    if reserved <= 0 then max else if reserved < max then max - reserved else if max == 0 then 0 else 1
  }

  /** A handler for event `ev`, just entered. */
  function Entered(isCall: bool): Task { Task(isCall, isCall, 0, 0, Running(0)) }

  /** A waiting Push takes its token if and only if fewer than pushCap are out, whoever else is there. */
  lemma AcquiresIff(p: Pool, ev: EventId)
    requires ev in p.tasks && p.tasks[ev].phase.WantPush?
    ensures Enabled(p, AcquirePush(ev)) <==> p.semPush < p.pushCap
  {}

  /** One more dispatch runs all the way into its handler, if there is room. */
  lemma OneMoreHandler(start: Pool, run: seq<Step>, ev: EventId, isCall: bool) returns (longer: seq<Step>)
    requires Legal(start, run)
    requires var p := Exec(start, run); ev !in p.tasks && p.semTotal < p.max && (isCall || p.semPush < p.pushCap)
    ensures Legal(start, longer)
    ensures var p, q := Exec(start, run), Exec(start, longer);
      && q.max == p.max && q.pushCap == p.pushCap && q.tasks == p.tasks[ev := Entered(isCall)]
      && q.semTotal == p.semTotal + 1 && q.semPush == p.semPush + if isCall then 0 else 1
  {
    hide Legal, Exec, Apply, Enabled, NextTask;
    var p := Exec(start, run);
    var p1 := Dispatches(p, ev, isCall);
    ExtendRun(start, run, Dispatch(ev, isCall, isCall, 0, 0));
    longer := run + [Dispatch(ev, isCall, isCall, 0, 0)];
    var p2 := p1;
    if !isCall {
      p2 := TakesPush(p1, ev);
      ExtendRun(start, longer, AcquirePush(ev));
      longer := longer + [AcquirePush(ev)];
    }
    var p3 := TakesTotal(p2, ev);
    ExtendRun(start, longer, AcquireTotal(ev));
    longer := longer + [AcquireTotal(ev)];
    var p4 := Spawns(p3, ev);
    ExtendRun(start, longer, Spawn(ev));
    longer := longer + [Spawn(ev)];
    var p5 := Starts(p4, ev);
    ExtendRun(start, longer, Start(ev));
    longer := longer + [Start(ev)];
    assert p5.tasks == p.tasks[ev := Entered(isCall)];
  }

  lemma Dispatches(p: Pool, ev: EventId, isCall: bool) returns (q: Pool)
    requires ev !in p.tasks
    ensures var s := Dispatch(ev, isCall, isCall, 0, 0);
      && Enabled(p, s) && q == Apply(p, s)
      && q == p.(tasks := p.tasks[ev := Entered(isCall).(phase := FirstPhase(isCall))])
  {
    q := Apply(p, Dispatch(ev, isCall, isCall, 0, 0));
  }

  lemma TakesPush(p: Pool, ev: EventId) returns (q: Pool)
    requires ev in p.tasks && p.tasks[ev].phase.WantPush? && p.semPush < p.pushCap
    ensures Enabled(p, AcquirePush(ev)) && q == Apply(p, AcquirePush(ev))
    ensures q == p.(semPush := p.semPush + 1, tasks := p.tasks[ev := p.tasks[ev].(phase := WantTotal)])
  {
    q := Apply(p, AcquirePush(ev));
  }

  lemma TakesTotal(p: Pool, ev: EventId) returns (q: Pool)
    requires ev in p.tasks && p.tasks[ev].phase.WantTotal? && p.semTotal < p.max
    ensures Enabled(p, AcquireTotal(ev)) && q == Apply(p, AcquireTotal(ev))
    ensures q == p.(semTotal := p.semTotal + 1, tasks := p.tasks[ev := p.tasks[ev].(phase := Granted)])
  {
    q := Apply(p, AcquireTotal(ev));
  }

  lemma Spawns(p: Pool, ev: EventId) returns (q: Pool)
    requires ev in p.tasks && p.tasks[ev].phase.Granted?
    ensures Enabled(p, Spawn(ev)) && q == Apply(p, Spawn(ev))
    ensures q == p.(wg := p.wg + 1, tasks := p.tasks[ev := p.tasks[ev].(phase := Spawned)])
  {
    q := Apply(p, Spawn(ev));
  }

  lemma Starts(p: Pool, ev: EventId) returns (q: Pool)
    requires ev in p.tasks && p.tasks[ev].phase.Spawned? && p.tasks[ev].work == 0
    ensures Enabled(p, Start(ev)) && q == Apply(p, Start(ev))
    ensures q == p.(starts := p.starts + [ev], tasks := p.tasks[ev := p.tasks[ev].(phase := Running(0))])
  {
    q := Apply(p, Start(ev));
  }

  /** `n` handlers of one kind at once. */
  lemma {:induction false} ManyHandlers(max: nat, reserved: int, n: nat, isCall: bool) returns (run: seq<Step>)
    requires n <= max && (isCall || n <= MostPushes(max, reserved))
    ensures Legal(Init(max, reserved), run)
    ensures var q := Exec(Init(max, reserved), run);
      && q.max == max && q.pushCap == Init(max, reserved).pushCap && q.semTotal == n
      && q.semPush == (if isCall then 0 else n)
      && |q.tasks| == n && forall ev <- q.tasks.Keys :: ev < n && q.tasks[ev] == Entered(isCall)
    decreases n
  {
    if n == 0 {
      run := [];
      LegalNothing(Init(max, reserved));
    } else {
      var before := ManyHandlers(max, reserved, n - 1, isCall);
      run := OneMoreHandler(Init(max, reserved), before, n - 1, isCall);
      var p, q := Exec(Init(max, reserved), before), Exec(Init(max, reserved), run);
      hide Legal, Exec;
      assert q.tasks.Keys == p.tasks.Keys + {n - 1};
      assert |q.tasks| == |q.tasks.Keys| && |p.tasks| == |p.tasks.Keys|;
    }
  }

  lemma AllOf(tasks: map<EventId, Task>, n: nat, p: Task -> bool)
    requires |tasks| == n && forall ev <- tasks.Keys :: p(tasks[ev])
    ensures |Where(tasks, p)| == n
  {
    assert Where(tasks, p) == tasks.Keys;
    assert |tasks.Keys| == |tasks|;
  }

  /**
   * Push capacity in numbers. In every reachable state at most max - reserved Push handlers run at once (all of max if
   * nothing is reserved, and one if everything is), and some run reaches exactly that many.
   */
  lemma PushCapacityExact(max: nat, reserved: int) returns (most: nat, reached: seq<Step>)
    ensures forall run :: Legal(Init(max, reserved), run) ==>
      |Where(Exec(Init(max, reserved), run).tasks, PushInHandler)| <= most
    ensures Legal(Init(max, reserved), reached)
    ensures |Where(Exec(Init(max, reserved), reached).tasks, PushInHandler)| == most
    ensures reserved <= 0 ==> most == max
    ensures 0 < reserved < max ==> most == max - reserved
    ensures 1 <= max <= reserved ==> most == 1
  {
    forall run | Legal(Init(max, reserved), run)
      ensures |Where(Exec(Init(max, reserved), run).tasks, PushInHandler)| <= MostPushes(max, reserved)
    {
      PushBound(max, reserved, run);
    }
    most := MostPushes(max, reserved);
    reached := ManyHandlers(max, reserved, most, false);
    hide Legal, Exec;
    AllOf(Exec(Init(max, reserved), reached).tasks, most, PushInHandler);
  }

  lemma PushBound(max: nat, reserved: int, run: seq<Step>)
    requires Legal(Init(max, reserved), run)
    ensures |Where(Exec(Init(max, reserved), run).tasks, PushInHandler)| <= MostPushes(max, reserved)
  {
    InitInv(max, reserved);
    RunKeepsInv(Init(max, reserved), run);
    CapacityFixed(Init(max, reserved), run);
    var q := Exec(Init(max, reserved), run);
    HandlersBounded(q);
    SubsetSize(Where(q.tasks, PushInHandler), Where(q.tasks, InHandler));
    hide Legal, Exec, Inv;
  }

  /** And all of max handlers can be Calls. */
  lemma CallCapacityExact(max: nat, reserved: int) returns (reached: seq<Step>)
    ensures forall run :: Legal(Init(max, reserved), run) ==>
      |Where(Exec(Init(max, reserved), run).tasks, InHandler)| <= max
    ensures Legal(Init(max, reserved), reached)
    ensures |Where(Exec(Init(max, reserved), reached).tasks, CallInHandler)| == max
  {
    forall run | Legal(Init(max, reserved), run)
      ensures |Where(Exec(Init(max, reserved), run).tasks, InHandler)| <= max
    {
      InitInv(max, reserved);
      RunKeepsInv(Init(max, reserved), run);
      CapacityFixed(Init(max, reserved), run);
      HandlersBounded(Exec(Init(max, reserved), run));
    }
    reached := ManyHandlers(max, reserved, max, true);
    hide Legal, Exec;
    AllOf(Exec(Init(max, reserved), reached).tasks, max, CallInHandler);
  }

  predicate CallInHandler(t: Task) { t.isCall && InHandler(t) }

  /** A dispatch whose context is done need not wait: it returns the error, with whatever token it had given back. */
  lemma CancelledReturns(p: Pool, ev: EventId) returns (run: seq<Step>)
    requires Inv(p) && ev in p.tasks && (p.tasks[ev].phase.WantPush? || p.tasks[ev].phase.WantTotal?)
    requires p.tasks[ev].cancellable && ev in p.cancelled
    ensures Legal(p, run) && forall i :: 0 <= i < |run| ==> Internal(run[i])
    ensures var q := Exec(p, run);
      && ev in q.tasks && q.tasks[ev].phase.Refused? && q.semTotal == p.semTotal
      && q.semPush == p.semPush - if HoldsPush(p.tasks[ev]) then 1 else 0
  {
    LegalNothing(p);
    if p.tasks[ev].phase.WantPush? {
      assert Enabled(p, CancelAtPush(ev));
      ExtendRun(p, [], CancelAtPush(ev));
      run := [] + [CancelAtPush(ev)];
    } else {
      HolderKeepsTokenThere(p, ev);
      assert GoodTask(p.tasks[ev]);
      var q := Apply(p, CancelAtTotal(ev));
      ExtendRun(p, [], CancelAtTotal(ev));
      run := [] + [CancelAtTotal(ev)];
      if !p.tasks[ev].isCall {
        ExtendRun(p, run, BackOut(ev));
        run := run + [BackOut(ev)];
      }
    }
  }
}
