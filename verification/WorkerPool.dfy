/**
 * The worker pool as its code keeps it: two channels used as counting semaphores, a wait group, and for every
 * dispatch where its goroutine stands and which deferred calls it still owes. Each method is one statement that
 * other goroutines can interleave with, and takes the pool along one step of PoolModel.
 */
module WorkerPools {
  import opened Options
  import opened PoolModel

  datatype Deferred = CloseDoneChannel | WaitGroupDone | ReceiveTotal | ReceivePush | RecoverPanic

  datatype Position =
    | AtPushSelect
    | AtTotalSelect
    | AtGiveBack
    | ReturnedError
    | AtGo
    | AtEntry
    | InHandle(left: nat)
    | Unwinding(panicking: bool)

  datatype Routine = Routine(isCall: bool, cancellable: bool, resp: ChanId, work: nat, at: Position,
    deferred: seq<Deferred>)

  /** Everything a worker defers, in the order in which it does so. */
  function AllDeferred(isCall: bool): (all: seq<Deferred>) {
    [CloseDoneChannel, WaitGroupDone, ReceiveTotal] + (if isCall then [] else [ReceivePush]) + [RecoverPanic]
  }

  predicate GoodRoutine(r: Routine) {
    match r.at
    case InHandle(_) => r.deferred == AllDeferred(r.isCall)
    case Unwinding(panicking) =>
      r.deferred <= AllDeferred(r.isCall) && (panicking ==> r.deferred == AllDeferred(r.isCall))
    case _ => r.deferred == []
  }

  /** The phase of the protocol that a goroutine's position and its deferred calls amount to. */
  function PhaseOf(r: Routine): Phase {
    match r.at
    case AtPushSelect => WantPush
    case AtTotalSelect => WantTotal
    case AtGiveBack => BackingOut
    case ReturnedError => Refused
    case AtGo => Granted
    case AtEntry => Spawned
    case InHandle(left) => Running(left)
    case Unwinding(panicking) =>
      if r.deferred == [] then Closed
      else
        match r.deferred[|r.deferred| - 1]
        case RecoverPanic => if panicking then Panicked else AfterHandler(r.isCall)
        case ReceivePush => OwesBoth
        case ReceiveTotal => OwesTotal
        case WaitGroupDone => OwesCount
        case CloseDoneChannel => OwesClose
  }

  function TaskOf(r: Routine): Task { Task(r.isCall, r.cancellable, r.resp, r.work, PhaseOf(r)) }

  ghost function TasksOf(routines: map<EventId, Routine>): map<EventId, Task> {
    map ev | ev in routines :: TaskOf(routines[ev])
  }

  lemma OneMoved(routines: map<EventId, Routine>, ev: EventId, r: Routine)
    ensures TasksOf(routines[ev := r]) == TasksOf(routines)[ev := TaskOf(r)]
  {}

  /** What one step writes, and that it keeps the invariant. */
  lemma Commit(before: Pool, routines: map<EventId, Routine>, s: Step, after: Routine)
    requires PoolModel.Inv(before) && before.tasks == TasksOf(routines)
    requires Enabled(before, s) && !s.Cancel? && TaskOf(after) == NextTask(before, s)
    ensures PoolModel.Inv(Apply(before, s))
    ensures Apply(before, s) == Pool(
      before.max, before.pushCap, before.semPush + PushDelta(s), before.semTotal + TotalDelta(s),
        before.wg + CountDelta(s),
      TasksOf(routines[s.ev := after]), before.cancelled,
      if s.Start? then before.starts + [s.ev] else before.starts,
      if s.CloseDone? then before.closes + [s.ev] else before.closes)
  {
    StepKeepsInv(before, s);
    OneMoved(routines, s.ev, after);
  }

  /** The deferred calls that change the pool, last in first out: what a worker does once its handler is over. */
  function UnwindSteps(ev: EventId, isCall: bool, panicked: bool): (run: seq<Step>) {
    (if panicked then [Recover(ev)] else []) + (if isCall then [] else [ReleasePush(ev)])
    + [ReleaseTotal(ev), Uncount(ev), CloseDone(ev)]
  }

  /** The step of a deferred call: none for a recoverPanic that finds nothing to recover. */
  function StepOf(ev: EventId, d: Deferred, panicking: bool): (step: Option<Step>) {
    match d
    case RecoverPanic => if panicking then Some(Recover(ev)) else None
    case ReceivePush => Some(ReleasePush(ev))
    case ReceiveTotal => Some(ReleaseTotal(ev))
    case WaitGroupDone => Some(Uncount(ev))
    case CloseDoneChannel => Some(CloseDone(ev))
  }

  function DueStep(ev: EventId, r: Routine): (step: Option<Step>)
    requires r.at.Unwinding? && r.deferred != []
  {
    StepOf(ev, r.deferred[|r.deferred| - 1], r.at.panicking)
  }

  /** The steps of a whole stack of deferred calls. */
  function StillDue(ev: EventId, deferred: seq<Deferred>, panicking: bool): seq<Step> {
    if deferred == [] then []
    else
      var n := |deferred| - 1;
      var step := StepOf(ev, deferred[n], panicking);
      (if step.Some? then [step.value] else []) + StillDue(ev, deferred[..n], false)
  }

  lemma AllDue(ev: EventId, isCall: bool, panicked: bool)
    ensures StillDue(ev, AllDeferred(isCall), panicked) == UnwindSteps(ev, isCall, panicked)
  {
    var all := AllDeferred(isCall);
    assert all[..|all| - 1] == [CloseDoneChannel, WaitGroupDone, ReceiveTotal] + (if isCall then [] else [ReceivePush]);
    var closing := [CloseDoneChannel];
    var counting := closing + [WaitGroupDone];
    var total := counting + [ReceiveTotal];
    assert StillDue(ev, closing, false) == [CloseDone(ev)] by { assert closing[..0] == []; }
    assert StillDue(ev, counting, false) == [Uncount(ev), CloseDone(ev)] by { assert counting[..1] == closing; }
    assert StillDue(ev, total, false) ==
      [ReleaseTotal(ev), Uncount(ev), CloseDone(ev)] by { assert total[..2] == counting; }
    if !isCall {
      var push := total + [ReceivePush];
      assert push[..3] == total && all[..4] == push;
      assert StillDue(ev, push, false) == [ReleasePush(ev), ReleaseTotal(ev), Uncount(ev), CloseDone(ev)];
    } else {
      assert all[..3] == total;
    }
  }

  class WorkerPool {
    const max: nat
    const pushCap: nat
    var semPush: nat
    var semTotal: nat
    var wg: int
    var routines: map<EventId, Routine>
    var cancelled: set<EventId>
    var starts: seq<EventId>
    var closes: seq<EventId>

    ghost function Model(): Pool
      reads this
    {
      Pool(max, pushCap, semPush, semTotal, wg, TasksOf(routines), cancelled, starts, closes)
    }

    ghost predicate Valid()
      reads this
    {
      PoolModel.Inv(Model()) && forall ev <- routines.Keys :: GoodRoutine(routines[ev])
    }

    ghost predicate At(ev: EventId, at: Position)
      reads this
    {
      ev in routines && routines[ev].at == at
    }

    constructor (maxWorkers: nat, reservedWorkers: int)
      ensures Valid() && Model() == Init(maxWorkers, reservedWorkers) && routines == map[]
      ensures max == maxWorkers
      ensures pushCap == if reservedWorkers < maxWorkers then maxWorkers - reservedWorkers else 1
    {
      var pushSlots := maxWorkers - reservedWorkers;
      if pushSlots < 1 {
        pushSlots := 1;
      }
      max, pushCap := maxWorkers, pushSlots;
      semPush, semTotal, wg := 0, 0, 0;
      routines, cancelled, starts, closes := map[], {}, [], [];
      new;
      assert Model().tasks == map[];
      InitInv(maxWorkers, reservedWorkers);
    }

    /** dispatch is called. */
    method Dispatch(ev: EventId, isCall: bool, cancellable: bool, resp: ChanId, work: nat)
      requires Valid() && ev !in routines
      modifies this
      ensures Valid() && Moved(old(Model()), PoolModel.Dispatch(ev, isCall, cancellable, resp, work))
      ensures routines.Keys == old(routines.Keys) + {ev}
    {
      hide Apply, PoolModel.Inv;
      var isPush := !isCall;
      var at := AtTotalSelect;
      if isPush {
        at := AtPushSelect;
      }
      var r := Routine(isCall, cancellable, resp, work, at, []);
      Commit(Model(), routines, PoolModel.Dispatch(ev, isCall, cancellable, resp, work), r);
      routines := routines[ev := r];
    }

    method CancelContext(ev: EventId)
      requires Valid()
      modifies this
      ensures Valid() && Moved(old(Model()), Cancel(ev))
    {
      StepKeepsInv(Model(), Cancel(ev));
      cancelled := cancelled + {ev};
    }

    /** The pool has taken step `s` since it was `before`. */
    ghost predicate Moved(before: Pool, s: Step)
      reads this
    {
      Enabled(before, s) && Model() == Apply(before, s)
    }

    /** The select on semPush. With both cases ready `coin` decides; with none it blocks. */
    method SelectPush(ev: EventId, coin: bool) returns (taken: Option<Step>)
      requires Valid() && At(ev, AtPushSelect)
      modifies this
      ensures Valid()
      ensures taken.Some? ==> taken.value in {AcquirePush(ev), CancelAtPush(ev)} && Moved(old(Model()), taken.value)
      ensures taken.None? ==>
        Model() == old(Model()) && !Enabled(Model(), AcquirePush(ev)) && !Enabled(Model(), CancelAtPush(ev))
    {
      hide Apply, PoolModel.Inv;
      var r := routines[ev];
      var done := r.cancellable && ev in cancelled;
      assert Model().tasks[ev] == TaskOf(r);
      if semPush < pushCap && (coin || !done) {
        Commit(Model(), routines, AcquirePush(ev), r.(at := AtTotalSelect));
        semPush := semPush + 1;
        routines := routines[ev := r.(at := AtTotalSelect)];
        return Some(AcquirePush(ev));
      } else if done {
        Commit(Model(), routines, CancelAtPush(ev), r.(at := ReturnedError));
        routines := routines[ev := r.(at := ReturnedError)];
        return Some(CancelAtPush(ev));
      }
      return None;
    }

    /** The select on semTotal. Its cancelled branch leaves a Push with its semPush token to give back. */
    method SelectTotal(ev: EventId, coin: bool) returns (taken: Option<Step>)
      requires Valid() && At(ev, AtTotalSelect)
      modifies this
      ensures Valid()
      ensures taken.Some? ==> taken.value in {AcquireTotal(ev), CancelAtTotal(ev)} && Moved(old(Model()), taken.value)
      ensures taken.None? ==>
        Model() == old(Model()) && !Enabled(Model(), AcquireTotal(ev)) && !Enabled(Model(), CancelAtTotal(ev))
    {
      hide Apply, PoolModel.Inv;
      var r := routines[ev];
      var done := r.cancellable && ev in cancelled;
      assert Model().tasks[ev] == TaskOf(r);
      if semTotal < max && (coin || !done) {
        Commit(Model(), routines, AcquireTotal(ev), r.(at := AtGo));
        semTotal := semTotal + 1;
        routines := routines[ev := r.(at := AtGo)];
        return Some(AcquireTotal(ev));
      } else if done {
        var isPush := !r.isCall;
        var at := ReturnedError;
        if isPush {
          at := AtGiveBack;
        }
        Commit(Model(), routines, CancelAtTotal(ev), r.(at := at));
        routines := routines[ev := r.(at := at)];
        return Some(CancelAtTotal(ev));
      }
      return None;
    }

    /** The receive from semPush on the way out of a cancelled Push: it finds a token there. */
    method GiveBack(ev: EventId)
      requires Valid() && At(ev, AtGiveBack)
      modifies this
      ensures Valid() && Moved(old(Model()), BackOut(ev))
    {
      hide Apply, PoolModel.Inv;
      var after := routines[ev].(at := ReturnedError);
      Ready(ev, BackOut(ev));
      Commit(Model(), routines, BackOut(ev), after);
      semPush := semPush - 1;
      routines := routines[ev := after];
    }

    /** wg.Add and the go statement. */
    method Go(ev: EventId)
      requires Valid() && At(ev, AtGo)
      modifies this
      ensures Valid() && Moved(old(Model()), Spawn(ev))
    {
      hide Apply, PoolModel.Inv;
      var after := routines[ev].(at := AtEntry);
      Ready(ev, Spawn(ev));
      Commit(Model(), routines, Spawn(ev), after);
      wg := wg + 1;
      routines := routines[ev := after];
    }

    /** The worker's defer statements, and its entry into Handle. */
    method Enter(ev: EventId)
      requires Valid() && At(ev, AtEntry)
      modifies this
      ensures Valid() && Moved(old(Model()), Start(ev))
    {
      hide Apply, PoolModel.Inv;
      var r := routines[ev];
      var deferred := [CloseDoneChannel];
      deferred := deferred + [WaitGroupDone];
      deferred := deferred + [ReceiveTotal];
      if !r.isCall {
        deferred := deferred + [ReceivePush];
      }
      deferred := deferred + [RecoverPanic];
      var after := r.(at := InHandle(r.work), deferred := deferred);
      Ready(ev, Start(ev));
      Commit(Model(), routines, Start(ev), after);
      starts := starts + [ev];
      routines := routines[ev := after];
    }

    /** One slice of handler code, which may as well return or panic. */
    method Handle(ev: EventId, s: Step)
      requires Valid() && ev in routines && routines[ev].at.InHandle?
      requires s in {Work(ev), Return(ev), Panic(ev)} && (s.Work? ==> routines[ev].at.left > 0)
      modifies this
      ensures Valid() && Moved(old(Model()), s)
      ensures !s.Work? ==> At(ev, Unwinding(s.Panic?)) && routines[ev] == old(routines[ev]).(at := Unwinding(s.Panic?))
    {
      hide Apply, PoolModel.Inv;
      var r := routines[ev];
      Ready(ev, s);
      var after := r.(at := if s.Work? then InHandle(r.at.left - 1) else Unwinding(s.Panic?));
      Commit(Model(), routines, s, after);
      routines := routines[ev := after];
    }

    /** A goroutine that waits for no token can always take its next step, and the step keeps the invariant. */
    ghost method Ready(ev: EventId, s: Step)
      requires Valid() && ev in routines && !s.Dispatch? && !s.Cancel? && s.ev == ev
      requires match s
        case BackOut(_) => routines[ev].at.AtGiveBack?
        case Spawn(_) => routines[ev].at.AtGo?
        case Start(_) => routines[ev].at.AtEntry?
        case Work(_) => routines[ev].at.InHandle? && routines[ev].at.left > 0
        case Return(_) => routines[ev].at.InHandle?
        case Panic(_) => routines[ev].at.InHandle?
        case Recover(_) => PhaseOf(routines[ev]) == Panicked
        case ReleasePush(_) => PhaseOf(routines[ev]) == OwesBoth
        case ReleaseTotal(_) => PhaseOf(routines[ev]) == OwesTotal
        case Uncount(_) => PhaseOf(routines[ev]) == OwesCount
        case CloseDone(_) => PhaseOf(routines[ev]) == OwesClose
        case _ => false
      ensures Enabled(Model(), s) && PoolModel.Inv(Apply(Model(), s))
      ensures Model().tasks[ev] == TaskOf(routines[ev])
    {
      assert Model().tasks[ev] == TaskOf(routines[ev]);
      assert GoodTask(Model().tasks[ev]);
      HolderKeepsTokenThere(Model(), ev);
      StepKeepsInv(Model(), s);
    }

    /** Pops and runs one deferred call. None of them ever blocks: the token to be received is there. */
    method RunDeferred(ev: EventId)
      requires Valid() && ev in routines && routines[ev].at.Unwinding? && routines[ev].deferred != []
      modifies this
      ensures Valid() && ev in routines && routines[ev].at.Unwinding? && routines[ev].isCall == old(routines[ev].isCall)
      ensures routines[ev].deferred == old(routines[ev].deferred)[..old(|routines[ev].deferred|) - 1]
      ensures !routines[ev].at.panicking
      ensures DueStep(ev, old(routines[ev])).None? ==> Model() == old(Model())
      ensures DueStep(ev, old(routines[ev])).Some? ==> Moved(old(Model()), DueStep(ev, old(routines[ev])).value)
    {
      hide Apply, PoolModel.Inv, NextTask, PhaseOf, Enabled, TaskOf, GoodRoutine;
      var r := routines[ev];
      var n := |r.deferred| - 1;
      var after := r.(at := Unwinding(false), deferred := r.deferred[..n]);
      ghost var due := DueStep(ev, routines[ev]);
      PopTask(Model(), ev, r, after);
      if due.Some? {
        Commit(Model(), routines, due.value, after);
      } else {
        OneMoved(routines, ev, after);
        assert TasksOf(routines)[ev := TaskOf(r)] == TasksOf(routines);
      }
      match r.deferred[n] {
        case RecoverPanic =>
        case ReceivePush => semPush := semPush - 1;
        case ReceiveTotal => semTotal := semTotal - 1;
        case WaitGroupDone => wg := wg - 1;
        case CloseDoneChannel => closes := closes + [ev];
      }
      routines := routines[ev := after];
    }

    /**
     * Once its handler has returned or panicked, a worker left alone gives back its tokens, semPush before
     * semTotal, leaves the wait group and closes its done channel, in this order and without ever blocking.
     */
    method Unwind(ev: EventId) returns (ghost run: seq<Step>)
      requires Valid() && ev in routines && routines[ev].at.Unwinding?
        && routines[ev].deferred == AllDeferred(routines[ev].isCall)
      modifies this
      ensures Valid() && run == UnwindSteps(ev, old(routines[ev].isCall), old(routines[ev].at.panicking))
      ensures Legal(old(Model()), run) && Model() == Exec(old(Model()), run)
      ensures ev in routines && PhaseOf(routines[ev]).Closed?
    {
      hide Apply, PoolModel.Inv, NextTask, Enabled, TaskOf, TasksOf, PhaseOf, GoodRoutine, Legal, Exec, AllDeferred,
        UnwindSteps, StillDue, StepOf, Model;
      run := [];
      ghost var isCall, panicked := routines[ev].isCall, routines[ev].at.panicking;
      ghost var before := Model();
      AllDue(ev, isCall, panicked);
      LegalNothing(before);
      while routines[ev].deferred != []
        invariant Valid() && ev in routines && routines[ev].at.Unwinding? && routines[ev].isCall == isCall
        invariant Legal(before, run) && Model() == Exec(before, run)
        invariant run + StillDue(ev, routines[ev].deferred, routines[ev].at.panicking) ==
          UnwindSteps(ev, isCall, panicked)
        decreases |routines[ev].deferred|
      {
        hide Apply, PoolModel.Inv, NextTask, Enabled, TaskOf, TasksOf, PhaseOf, GoodRoutine, Legal, Exec, AllDeferred,
          UnwindSteps, StillDue, StepOf, Model;
        ghost var due := DueStep(ev, routines[ev]);
        FirstDue(ev, routines[ev], run);
        RunDeferred(ev);
        if due.Some? {
          ExtendRun(before, run, due.value);
          run := run + [due.value];
        }
      }
      NothingDue(ev, routines[ev]);
    }
  }

  lemma FirstDue(ev: EventId, r: Routine, run: seq<Step>)
    requires r.at.Unwinding? && r.deferred != []
    ensures run + StillDue(ev, r.deferred, r.at.panicking) ==
      run + (if DueStep(ev, r).Some? then [DueStep(ev, r).value] else [])
        + StillDue(ev, r.deferred[..|r.deferred| - 1], false)
  {}

  lemma NothingDue(ev: EventId, r: Routine)
    requires r.at.Unwinding? && r.deferred == []
    ensures PhaseOf(r).Closed? && StillDue(ev, r.deferred, r.at.panicking) == []
  {}

  /** The deferred call that is due can be run, and is the step that its pop amounts to. */
  lemma PopTask(p: Pool, ev: EventId, r: Routine, after: Routine)
    requires PoolModel.Inv(p) && ev in p.tasks && p.tasks[ev] == TaskOf(r)
    requires GoodRoutine(r) && r.at.Unwinding? && r.deferred != []
    requires after == r.(at := Unwinding(false), deferred := r.deferred[..|r.deferred| - 1])
    ensures GoodRoutine(after)
    ensures var due := DueStep(ev, r);
      if due.Some? then !due.value.Cancel? && due.value.ev == ev && Enabled(p, due.value)
        && TaskOf(after) == NextTask(p, due.value)
      else TaskOf(after) == TaskOf(r)
  {
    hide PoolModel.Inv;
    PopsOne(r, after);
    HolderKeepsTokenThere(p, ev);
  }

  lemma PopsOne(r: Routine, after: Routine)
    requires GoodRoutine(r) && r.at.Unwinding? && r.deferred != []
    requires after == r.(at := Unwinding(false), deferred := r.deferred[..|r.deferred| - 1])
    ensures GoodRoutine(after)
    ensures var top := r.deferred[|r.deferred| - 1];
      PhaseOf(after) == match top
        case RecoverPanic => AfterHandler(r.isCall)
        case ReceivePush => OwesTotal
        case ReceiveTotal => OwesCount
        case WaitGroupDone => OwesClose
        case CloseDoneChannel => Closed
  {
    var all := AllDeferred(r.isCall);
    var n := |r.deferred|;
    assert r.deferred == all[..n] && r.deferred[n - 1] == all[n - 1];
    if n > 1 { assert after.deferred[n - 2] == all[n - 2]; }
  }
}
