/** Which handlers Stop does not wait for: when it calls Shutdown, a worker may still be inside Handle. */
module ShutdownRuns {
  import opened PoolModel
  import opened CellModel
  import opened Shutdown
  import ShutdownSafety

  /** The worker of event `ev` in pool `p` is inside Handle. */
  predicate InHandle(b: Bus, p: PoolId, ev: EventId) {
    p in b.cells && ev in b.cells[p].pool.tasks && InHandler(b.cells[p].pool.tasks[ev])
  }

  /** The event was accepted by a queue that abortAll took. */
  ghost predicate InTakenQueue(b: Bus, p: PoolId, ev: EventId) {
    exists ref, i :: ref in b.taken && ref.pool == p && Known(b, ref) && 0 <= i < |QueueAt(b, ref).accepted|
      && QueueAt(b, ref).accepted[i].ev == ev
  }

  /**
   * A worker inside Handle when Stop calls Shutdown was not counted, in the pools that Stop snapshotted, when Stop
   * began, and its event belongs to no queue that abortAll took.
   */
  lemma StillInHandle(run: seq<BusStep>, b: Bus, p: PoolId, ev: EventId)
    requires Runs(EMPTY_BUS, run) && b == EndOf(EMPTY_BUS, run) && b.stage.CallingShutdown? && InHandle(b, p, ev)
    ensures Worker(p, ev) !in b.counted && !InTakenQueue(b, p, ev)
  {
    ShutdownSafety.ShutdownAfterDrain(run, b);
    hide Runs, EndOf;
  }

  // ---------------------------------------------------------------- runs

  lemma {:induction false} Joined(b: Bus, first: seq<BusStep>, second: seq<BusStep>)
    requires Runs(b, first) && Runs(EndOf(b, first), second)
    ensures Runs(b, first + second) && EndOf(b, first + second) == EndOf(EndOf(b, first), second)
    decreases |first|
  {
    hide Can, Next;
    if first == [] {
      assert first + second == second;
    } else {
      Joined(Next(b, first[0]), first[1..], second);
      assert (first + second)[1..] == first[1..] + second;
    }
  }

  lemma Then(b: Bus, run: seq<BusStep>, s: BusStep) returns (longer: seq<BusStep>)
    requires Runs(b, run) && Can(EndOf(b, run), s)
    ensures longer == run + [s] && Runs(b, longer) && EndOf(b, longer) == Next(EndOf(b, run), s)
  {
    var t := EndOf(b, run);
    assert [s][1..] == [];
    assert Runs(Next(t, s), []) && EndOf(Next(t, s), []) == Next(t, s);
    assert Runs(t, [s]) && EndOf(t, [s]) == Next(t, s) by { hide Can, Next; }
    hide Runs, EndOf, Can, Next;
    Joined(b, run, [s]);
    longer := run + [s];
  }

  /** A run of one cell is a run of the bus. */
  lemma {:induction false} Lifted(b: Bus, p: PoolId, steps: seq<CellStep>) returns (run: seq<BusStep>)
    requires p in b.cells && CanRun(b.cells[p], steps) && forall i :: 0 <= i < |steps| ==> !steps[i].Create?
    ensures Runs(b, run) && EndOf(b, run) == b.(cells := b.cells[p := AfterRun(b.cells[p], steps)])
    decreases |steps|
  {
    if steps == [] {
      run := [];
      assert b.cells[p := b.cells[p]] == b.cells;
    } else {
      var s := InCell(p, steps[0]);
      assert !steps[0].Create?;
      OneCellStep(b, p, steps[0]);
      var next := Next(b, s);
      hide Can, Next, CanStep, After;
      assert forall i :: 0 <= i < |steps[1..]| ==> steps[1..][i] == steps[i + 1];
      var rest := Lifted(next, p, steps[1..]);
      run := [s] + rest;
      assert run[1..] == rest;
    }
  }

  lemma OneCellStep(b: Bus, p: PoolId, s: CellStep)
    requires p in b.cells && CanStep(b.cells[p], s) && !s.Create?
    ensures Can(b, InCell(p, s)) && Next(b, InCell(p, s)) == b.(cells := b.cells[p := After(b.cells[p], s)])
  {
    hide CanStep, After;
  }

  /** A Push goes straight to dispatch and gets into its handler. */
  lemma PushEnters(max: nat, reserved: int) returns (steps: seq<CellStep>)
    requires max >= 1
    ensures CanRun(NewCell(max, reserved), steps) && forall i :: 0 <= i < |steps| ==> !steps[i].Create?
    ensures var pool := AfterRun(NewCell(max, reserved), steps).pool; 0 in pool.tasks && InHandler(pool.tasks[0])
  {
    OnePushSteps(max, reserved);
    OnePushEnters(max, reserved);
    LastPush(max, reserved);
    var c0 := NewCell(max, reserved);
    var c1 := PushSubmitted(max, reserved);
    hide Apply, Enabled, OnePush, CanStep, After, CanRun, AfterRun, InHandler;
    var c2 := PoolMoves(c1, AcquirePush(0), OnePush(max, reserved, (1, 0), 0, WantTotal, []));
    var c3 := PoolMoves(c2, AcquireTotal(0), OnePush(max, reserved, (1, 1), 0, Granted, []));
    var c4 := PoolMoves(c3, Spawn(0), OnePush(max, reserved, (1, 1), 1, Spawned, []));
    var c5 := PoolMoves(c4, Start(0), OnePush(max, reserved, (1, 1), 1, Running(0), [0]));
    steps := NoSteps(c5);
    steps := InFront(c4, InPool(Start(0)), steps);
    steps := InFront(c3, InPool(Spawn(0)), steps);
    steps := InFront(c2, InPool(AcquireTotal(0)), steps);
    steps := InFront(c1, InPool(AcquirePush(0)), steps);
    steps := InFront(c0, SubmitDirect(0, false, 0, 0), steps);
  }

  lemma PushSubmitted(max: nat, reserved: int) returns (c: Cell)
    requires Moves(Init(max, reserved), Dispatch(0, false, false, 0, 0),
      OnePush(max, reserved, (0, 0), 0, WantPush, []))
    ensures CanStep(NewCell(max, reserved), SubmitDirect(0, false, 0, 0))
    ensures c == After(NewCell(max, reserved), SubmitDirect(0, false, 0, 0))
    ensures c.pool == OnePush(max, reserved, (0, 0), 0, WantPush, [])
  {
    hide OnePush, Apply;
    c := After(NewCell(max, reserved), SubmitDirect(0, false, 0, 0));
  }

  lemma NoSteps(c: Cell) returns (steps: seq<CellStep>)
    ensures steps == [] && CanRun(c, steps) && AfterRun(c, steps) == c
  {
    steps := [];
  }

  lemma InFront(c: Cell, s: CellStep, steps: seq<CellStep>) returns (longer: seq<CellStep>)
    requires CanStep(c, s) && CanRun(After(c, s), steps) && !s.Create?
    requires forall i :: 0 <= i < |steps| ==> !steps[i].Create?
    ensures CanRun(c, longer) && AfterRun(c, longer) == AfterRun(After(c, s), steps)
    ensures forall i :: 0 <= i < |longer| ==> !longer[i].Create?
  {
    longer := [s] + steps;
    assert longer[1..] == steps;
  }

  lemma LastPush(max: nat, reserved: int)
    ensures var pool := OnePush(max, reserved, (1, 1), 1, Running(0), [0]); 0 in pool.tasks && InHandler(pool.tasks[0])
  {}

  lemma PoolMoves(c: Cell, s: Step, q: Pool) returns (d: Cell)
    requires Moves(c.pool, s, q) && !s.Dispatch? && !s.Recover?
    ensures CanStep(c, InPool(s)) && d == After(c, InPool(s)) && d.pool == q
  {
    d := After(c, InPool(s));
  }

  /** Stop with one pool, which is idle, and no queue listed: it goes straight to the calls of Shutdown. */
  lemma StopsAtOnce(b: Bus, p: PoolId) returns (run: seq<BusStep>)
    requires b.started && b.stage.Idle? && b.live == map[] && p in b.cells && b.cells[p].pool.wg == 0
    ensures Runs(b, run) && EndOf(b, run).stage.CallingShutdown? && EndOf(b, run).cells == b.cells
    ensures EndOf(b, run).pools == [p] && EndOf(b, run).taken == []
  {
    var steps := [StopBegins([p]), TakeQueues([]), LoopEnds, LoopEnds, WaitNext, LoopEnds];
    var b1 := Next(b, steps[0]);
    var b2 := Next(b1, steps[1]);
    var b3 := Next(b2, steps[2]);
    var b4 := Next(b3, steps[3]);
    var b5 := Next(b4, steps[4]);
    assert Can(b5, steps[5]);
    assert Next(b5, LoopEnds).stage.CallingShutdown? && Next(b5, LoopEnds).cells == b.cells;
    assert Next(b5, LoopEnds).pools == [p] && Next(b5, LoopEnds).taken == [];
    assert Runs(b, []) && EndOf(b, []) == b;
    hide Can, Next, Runs, EndOf;
    run := Then(b, [], steps[0]);
    run := Then(b, run, steps[1]);
    run := Then(b, run, steps[2]);
    run := Then(b, run, steps[3]);
    run := Then(b, run, steps[4]);
    run := Then(b, run, steps[5]);
  }

  /** A started service with one new pool. */
  function Started(max: nat, reserved: int): Bus {
    EMPTY_BUS.(started := true, cells := map[0 := NewCell(max, reserved)])
  }

  lemma StartsUp(max: nat, reserved: int) returns (run: seq<BusStep>)
    ensures Runs(EMPTY_BUS, run) && EndOf(EMPTY_BUS, run) == Started(max, reserved)
  {
    var b1 := Next(EMPTY_BUS, AddPool(0, max, reserved));
    assert b1 == EMPTY_BUS.(cells := map[0 := NewCell(max, reserved)]);
    assert Next(b1, StartService) == Started(max, reserved);
    assert Runs(EMPTY_BUS, []) && EndOf(EMPTY_BUS, []) == EMPTY_BUS;
    hide Runs, EndOf, Next;
    run := Then(EMPTY_BUS, [], AddPool(0, max, reserved));
    run := Then(EMPTY_BUS, run, StartService);
  }

  /** A direct Push that passed getHandler before Stop is handled while Stop calls Shutdown. */
  lemma LatePushInHandle(max: nat, reserved: int) returns (run: seq<BusStep>)
    requires max >= 1
    ensures Runs(EMPTY_BUS, run) && EndOf(EMPTY_BUS, run).stage.CallingShutdown?
      && InHandle(EndOf(EMPTY_BUS, run), 0, 0)
    ensures EndOf(EMPTY_BUS, run).pools == [0]
  {
    hide Runs, EndOf, CanRun, AfterRun, InHandler;
    var start := StartsUp(max, reserved);
    var b := Started(max, reserved);
    var stop := StopsAtOnce(b, 0);
    Joined(EMPTY_BUS, start, stop);
    var c := EndOf(b, stop);
    var steps := PushEnters(max, reserved);
    var push := Lifted(c, 0, steps);
    Joined(EMPTY_BUS, start + stop, push);
    run := start + stop + push;
  }

  /** A handler whose pool was replaced by a registration is still running while Stop calls Shutdown. */
  lemma ReplacedPoolInHandle(max: nat, reserved: int) returns (run: seq<BusStep>)
    requires max >= 1
    ensures Runs(EMPTY_BUS, run) && EndOf(EMPTY_BUS, run).stage.CallingShutdown?
      && InHandle(EndOf(EMPTY_BUS, run), 0, 0)
    ensures 0 !in EndOf(EMPTY_BUS, run).pools
  {
    hide Runs, EndOf, CanRun, AfterRun, InHandler;
    var start := StartsUp(max, reserved);
    var b := Started(max, reserved);
    var steps := PushEnters(max, reserved);
    var push := Lifted(b, 0, steps);
    Joined(EMPTY_BUS, start, push);
    var c := EndOf(b, push);
    run := Then(EMPTY_BUS, start + push, AddPool(1, max, reserved));
    var d := Next(c, AddPool(1, max, reserved));
    assert d == c.(cells := c.cells[1 := NewCell(max, reserved)]);
    var stop := StopsAtOnce(d, 1);
    Joined(EMPTY_BUS, run, stop);
    run := run + stop;
  }
}
